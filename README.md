# GPTSwarm core in Dafny

A model of the core of GPTSwarm, a framework that represents language agents as
computational graphs. Nodes are operations, which mostly call an LLM. An agent is a
graph of nodes. A swarm is a composite graph that joins many agents through
connections that can be optimized.

The model covers these parts:

- **Node and graph bookkeeping** (`swarm/graph/node.py`, `swarm/graph/graph.py`).
  - Node objects with successor and predecessor lists, held by id in an arena of node objects.
  - `add_node`, `find_node` and `num_edges`.
  - `Graph.run`: the useful nodes are those that reach an output node. They are scheduled
    in Kahn order, each node is retried until its per-attempt timeout succeeds, and the
    output nodes' answers are collected.
- **The composite graph** (`swarm/graph/composite_graph.py`).
  - `add_graph` and `init`, which connects candidate pairs whose draw falls below the
    probability and that close no cycle.
  - `mutate`, which adds drawn edges that close no cycle and removes learned ones,
    never leaving the decision node without a predecessor.
  - `check_cycle`.
- **The edge parameterization** (`swarm/optimizer/edge_optimizer/parameterization.py`).
  - `random_sample_num_edges`.
  - `realize_ranks` and `realize`, `realize_full` and `realize_mask`.
- **The swarm** (`swarm/graph/swarm.py`) and **the shared memory** (`swarm/memory/memory.py`).
  - `Swarm.organize`: which agents are kept, the potential connections between them and
    to the decision node, and the composite graph they form.
  - The memory's `add`, `query_by_operations`, `query_by_id` and `clear`.
- **The mini-crosswords domain.**
  - The environment: `reset` and `step`, the answers a board spells, and the letter,
    word and game rewards.
  - The response parser.
  - The brute-force and greedy solvers.
- **Prompt and evaluation helpers.**
  - The plan and operation parsers.
  - `get_combine_materials`.
  - The HumanEval example extraction.
  - MMLU's input formatting and answer post-processing.
  - The accuracy counter.
  - The FinalDecision node: majority vote, random choice and the materials `meta_prompt`
    gathers.
- **The agent builders** that wire operations into a chain: CrosswordsReflection,
  CrosswordsToT, CrosswordsBruteForceOpt, COT and CodeReact.

Several things become parameters:

- LLM replies, node execution results and the outcome of each timed attempt.
- Every random draw (`random.randint`, `random.choice`, the uniform draws of `init`,
  torch's Bernoulli samples).
- Node ids, supplied distinct in creation order.

Code that works by changing state becomes classes with `modifies` clauses:

- Graph, CompositeGraph, Memory, CrosswordsEnv, Accuracy and FinalDecision.
- Their methods are proved against value-level specification functions.
- Those functions' properties are proved as lemmas.

## Model

| member | source | states |
|---|---|---|
| Nodes.RemoveFirst | swarm/graph/node.py:79-80 | Python's list.remove on a present element: one element shorter, the same multiset less one occurrence of the removed element |
| Nodes.RemoveSuccessor | swarm/graph/node.py:82-85 | remove_successor raises ValueError exactly when b is among a's successors while a is missing from b's predecessors |
| Nodes.AddSuccessorSound | swarm/graph/node.py:71-75 | add_successor keeps the successor and predecessor lists mirrored and duplicate-free, adds exactly the edge a -> b, and a second identical call changes nothing |
| Nodes.AddPredecessorMirrors | swarm/graph/node.py:65-69 | on mirrored lists a.add_predecessor(b) has the same effect as b.add_successor(a) |
| Nodes.RemoveSuccessorSound | swarm/graph/node.py:82-85 | on mirrored lists remove_successor never raises, removes exactly the edge a -> b (nothing when it is absent) and keeps the lists mirrored |
| Nodes.RemovePredecessorMirrors | swarm/graph/node.py:77-80 | on mirrored lists a.remove_predecessor(b) has the same effect as b.remove_successor(a) |
| Nodes.AddKeepsShape | swarm/graph/node.py:65-75 | whatever the lists hold, both add operations keep every list inside the same set of node objects |
| Nodes.RemoveSuccessorKeepsShape | swarm/graph/node.py:82-85 | remove_successor keeps every list inside the same node objects, also when it raises halfway |
| Nodes.RemovePredecessorKeepsShape | swarm/graph/node.py:77-80 | remove_predecessor keeps every list inside the same node objects, also when it raises halfway |
| Nodes.ProcessInput | swarm/graph/node.py:87-107 | raises exactly when no input is given and there are no predecessors; a list input is kept, any other input wrapped; with no input the result holds precisely the last memory record of each predecessor that has one, at most one per predecessor |
| Nodes.LastRecords | swarm/graph/node.py:93-98 | the predecessor loop of process_input collects exactly the last records of the predecessors that have records, never more than one per predecessor |
| Nodes.LastRecordsOne | swarm/graph/node.py:93-98 | one predecessor contributes its last record when query_by_id gives it a non-empty list, and nothing otherwise |
| Nodes.LastRecordsAppend | swarm/graph/node.py:93-98 | the records follow the predecessors in order: for one run of predecessors followed by another, they are the first run's records and then the second's, so each predecessor contributes exactly its own last record, in its turn |
| Nodes.ConcatAt | swarm/graph/node.py:116-119 | the combined input lays every predecessor's outputs end to end, in predecessor order |
| Nodes.ConcatLength | swarm/graph/node.py:116-119 | the combined input is as long as all predecessor outputs together |
| Nodes.Dispatch | swarm/graph/node.py:111-131 | execute starts no task exactly when the node has neither inputs nor predecessors, and one task per own input when it has inputs |
| Nodes.DispatchCombined | swarm/graph/node.py:113-120 | without own inputs a combining node starts one task whose list holds every predecessor's outputs at that predecessor's offset |
| Nodes.DispatchPerElement | swarm/graph/node.py:121-126 | without own inputs any other node starts one task per predecessor output element, predecessor by predecessor |
| Nodes.GatherConcat | swarm/graph/node.py:133-141 | gathering two batches of results is gathering each and concatenating |
| Nodes.GatherSplit | swarm/graph/node.py:133-141 | each task's contribution (nothing when it raised, a list's items, or the value) sits between those of the tasks before and after it |
| Nodes.ExecuteOutputs | swarm/graph/node.py:109-141 | a node without inputs or predecessors ends with no outputs; a node with inputs ends with the gathered results of its own inputs |
| Nodes.ExecuteOutputsLocal | swarm/graph/node.py:109-141 | the outputs execute produces depend only on the outputs of the node's predecessors |
| Arenas.WithObject | swarm/graph/node.py:45-59 | a new node object starts with no edges, inputs or outputs and changes no existing edge |
| Arenas.MergeOk | swarm/graph/composite_graph.py:23-24 | the node objects of two graphs that share no object form a well-formed whole |
| Arenas.MergeEdges | swarm/graph/composite_graph.py:23-24 | the edges of the merged node objects are exactly the edges of one graph or of the other |
| Arenas.FirstSettled | swarm/graph/graph.py:136-146 | the retry loop stops at the first attempt that did not time out, below max_tries; all earlier attempts timed out |
| Arenas.Schedule | swarm/graph/graph.py:133-152 | running the nodes of the schedule changes only outputs, and leaves the outputs of unscheduled nodes alone |
| Arenas.ScheduleSnoc | swarm/graph/graph.py:133-152 | scheduling one more node is one more retry-loop step on the state so far |
| Arenas.Fed | swarm/graph/graph.py:129-131 | every input node gets a one-element list holding the payload; every other node keeps its inputs |
| Arenas.FedArena | swarm/graph/graph.py:129-131 | handing out the payload changes only the inputs, and those as Fed says |
| Arenas.NodeResultLocal | swarm/graph/graph.py:136-146 | what the retry loop leaves in a node depends only on that node's fields and its predecessors' outputs |
| Arenas.NodeResult | swarm/graph/graph.py:136-146 | with max_tries of 0 or less the node is not run and keeps its outputs; otherwise it ends with no outputs or exactly what one completed execute leaves |
| Arenas.Executed | swarm/graph/node.py:109-141 | a completed execute leaves well-formed node objects |
| Arenas.Step | swarm/graph/graph.py:136-146 | the retry loop of one node leaves well-formed node objects |
| Arenas.ScheduleDataflow | swarm/graph/graph.py:133-152 | when every scheduled node comes after all of its predecessors, each ends up holding exactly what it computes from its predecessors' final outputs |
| Scheduling.UsefulIds | swarm/graph/graph.py:116-125 | useful_node_ids holds exactly the nodes of the node map from which an output node can be reached, without repeats |
| Scheduling.InDegrees | swarm/graph/graph.py:126 | the in-degree of each useful node is the length of its predecessor list |
| Scheduling.Sources | swarm/graph/graph.py:127 | the initial queue holds exactly the useful nodes with no predecessors, without repeats |
| Scheduling.KahnStart | swarm/graph/graph.py:125-127 | before the loop the scheduling bookkeeping holds, with nothing popped and the sources queued |
| Scheduling.Pop | swarm/graph/graph.py:133-135 | taking the head of the queue keeps the bookkeeping, keeps every popped node after its predecessors, and pops a node not popped before |
| Scheduling.Release | swarm/graph/graph.py:148-152 | releasing the successors of the node just run keeps the bookkeeping and only appends to the queue |
| Scheduling.KahnBound | swarm/graph/graph.py:133-152 | popped and queued nodes never outnumber the useful nodes, so the loop ends |
| Scheduling.HitsAreCommonPreds | swarm/graph/graph.py:148-152 | on mirrored lists, how often a node is named among the successor lists of popped nodes is how many of its predecessors were popped |
| Scheduling.OrderedPredsFirst | swarm/graph/graph.py:148-152 | on mirrored lists, every predecessor of a scheduled node was scheduled before it |
| Scheduling.ReadyNode | swarm/graph/graph.py:133-152 | on an acyclic graph with mirrored lists, while a useful node is unpopped some useful node has all its predecessors popped |
| Scheduling.Complete | swarm/graph/graph.py:133-152 | on an acyclic graph with mirrored lists, when the queue runs dry every useful node has run |
| Digraph.AddSafeEdgeKeepsAcyclic | swarm/graph/composite_graph.py:88-94 | adding an edge x -> y when y cannot reach x keeps the graph acyclic |
| Digraph.SubGraphKeepsAcyclic | swarm/graph/composite_graph.py:66-86 | removing edges never creates a cycle |
| Digraph.RankedIsAcyclic | swarm/optimizer/edge_optimizer/parameterization.py:104-111 | a graph whose edges all go forward in a ranking has no cycle |
| Digraph.ReachesAny | swarm/graph/graph.py:116-123 | the recursive search answers true exactly when some target is reachable from the node |
| Digraph.SomeSuccessorReaches | swarm/graph/graph.py:120-123 | the loop over successors answers true exactly when a target is reached through one of the successors from that position on |
| Digraph.ReachViaAll | swarm/graph/graph.py:120-123 | every node reachable from n, other than n, is reached through one of n's successors |
| Execution.AnswerOf | swarm/graph/graph.py:159 | msg.get("output", msg) succeeds exactly on dicts; it gives the "output" entry when the dict has one and the dict itself otherwise |
| Execution.AnswersOf | swarm/graph/graph.py:162-164 | the per-message loop succeeds exactly when every message is a dict; it then gives one answer per message, each position holding that message's answer |
| Execution.Contribution | swarm/graph/graph.py:156-164 | by default a node with messages contributes exactly the answer of its last message, and succeeds exactly when that message is a dict; with return_all_outputs, or with no messages, it contributes the answers of all its messages in order |
| Execution.Collected | swarm/graph/graph.py:154-164 | at most one answer per output node by default; as many answers as output messages when all are asked for |
| Execution.Answers | swarm/graph/graph.py:154-168 | run returns the collected answers when there are some and the single placeholder when there are none; it raises exactly when collecting raises |
| Execution.CollectedRaisedStays | swarm/graph/graph.py:154-164 | once one output node's messages raise, the whole collection raises with that error |
| Execution.CollectedOne | swarm/graph/graph.py:154-164 | a single output node contributes exactly what its own messages give |
| Execution.CollectedOk | swarm/graph/graph.py:154-164 | collecting succeeds exactly when the contribution of every output node succeeds |
| Execution.CollectedSnoc | swarm/graph/graph.py:154-164 | one more output node appends its contribution after the answers collected so far |
| Execution.CollectedSnocOk | swarm/graph/graph.py:154-164 | when collecting over some nodes and one more succeeds, so does collecting over the nodes before it, and so does the last node's contribution |
| Execution.CollectedAppend | swarm/graph/graph.py:154-164 | the answers of one run of output nodes followed by another are the first run's answers followed by the second's, in output-node order |
| Execution.BuildTasks | swarm/graph/node.py:111-131 | the arguments of the tasks built by the loops are those of Dispatch |
| Execution.GatherResults | swarm/graph/node.py:133-141 | the outputs are extended by the gathered task results, in task order |
| Execution.Execute | swarm/graph/node.py:109-141 | Node.execute leaves the node state Executed describes |
| Execution.RunNode | swarm/graph/graph.py:136-146 | the retry loop makes at most max_tries attempts, all but the last timed out, and the last one settled unless max_tries were used |
| Execution.FeedInputs | swarm/graph/graph.py:129-131 | the input loop leaves the inputs Fed describes |
| Execution.CollectAnswers | swarm/graph/graph.py:154-168 | the answer loop returns what Answers describes |
| Execution.AnswerEach | swarm/graph/graph.py:162-164 | the inner answer loop returns what AnswersOf describes |
| Graphs.Graph.constructor | swarm/graph/graph.py:45-59 | a new graph has no nodes, input nodes or output nodes |
| Graphs.Graph.NewNode | swarm/graph/node.py:45-59 | a new node object joins the objects, with no edges, outside the node map |
| Graphs.Graph.AddNode | swarm/graph/graph.py:86-97 | add_node puts the node under its id and never overwrites an existing entry |
| Graphs.Graph.AddNodes | swarm/graph/composite_graph.py:27-31 | adding nodes in turn appends their ids to the node map in order |
| Graphs.Graph.Absorb | swarm/graph/composite_graph.py:23-37 | add_graph merges the other graph's node objects, appends its ids to the node map and its input nodes to the input nodes |
| Graphs.Graph.AddSuccessor | swarm/graph/node.py:71-75 | the edge lists change as Nodes.AddSuccessor says, and nothing else changes |
| Graphs.Graph.AddPredecessor | swarm/graph/node.py:65-69 | the edge lists change as Nodes.AddPredecessor says, and nothing else changes |
| Graphs.Graph.RemoveSuccessor | swarm/graph/node.py:82-85 | succeeds exactly when Nodes.RemoveSuccessor does; when the second removal raises, the first has taken effect |
| Graphs.Graph.RemovePredecessor | swarm/graph/node.py:77-80 | succeeds exactly when Nodes.RemovePredecessor does; when the second removal raises, the first has taken effect |
| Graphs.Graph.NumEdges | swarm/graph/graph.py:71-76 | num_edges is the sum of the successor-list lengths of the nodes in the map |
| Graphs.Graph.FindNode | swarm/graph/graph.py:170-175 | find_node returns the node exactly when its id is in the map, and raises "Node not found" otherwise |
| Graphs.Graph.Run | swarm/graph/graph.py:111-168 | run on an acyclic graph: only inputs and outputs change, the nodes run once each in an order of useful nodes, the state is the schedule of the fed graph, and the answers are those collected; with mirrored lists every useful node runs after its predecessors and holds what it computes from their final outputs |
| Graphs.RunArena | swarm/graph/graph.py:111-168 | the same as Graph.Run, on the node objects of a graph |
| Graphs.Select | swarm/graph/graph.py:116-127 | the useful nodes are exactly those that reach an output node, and the in-degrees and queue start the scheduling bookkeeping |
| Graphs.Drain | swarm/graph/graph.py:133-152 | the scheduling loop ends with an empty queue, pops each node after its predecessors, and leaves the state of running that order |
| Graphs.RunSound | swarm/graph/graph.py:133-152 | every node run is useful and runs once; with mirrored lists every useful node runs, and holds what it computes from its predecessors' final outputs |
| Composite.CycleSafe | swarm/graph/composite_graph.py:88-94 | check_cycle(in_node, {out_node}) is false exactly when the head of the connection cannot reach its tail |
| Composite.ConnectSound | swarm/graph/composite_graph.py:53 | connecting a candidate adds exactly the edge it names and keeps every list within the node objects |
| Composite.ConnectSymmetric | swarm/optimizer/edge_optimizer/parameterization.py:129-131 | on mirrored lists the extra add_predecessor of a mirrored connection changes nothing, and the lists stay mirrored |
| Composite.Connect | swarm/graph/composite_graph.py:53 | connecting two known nodes keeps the node set of both edge lists |
| Composite.Realized | swarm/graph/composite_graph.py:47-53 | trying the first i candidates keeps the node set of both edge lists and records one turn per candidate |
| Composite.RealizedStep | swarm/graph/composite_graph.py:47-53 | each turn keeps the earlier turns; a connected candidate was wanted, closed no cycle and added exactly its own edge; any other turn changed nothing |
| Composite.RealizedAcyclic | swarm/graph/composite_graph.py:47-53 | trying candidates in order and skipping those that would close a cycle keeps the graph acyclic |
| Composite.RealizedWanted | swarm/graph/composite_graph.py:51 | only wanted candidates are connected |
| Composite.RealizedEdges | swarm/graph/composite_graph.py:47-53 | the run adds to the edges exactly the candidates it picks |
| Composite.RealizedSkips | swarm/graph/composite_graph.py:51 | every wanted candidate that closes no cycle is connected |
| Composite.RealizedSymmetric | swarm/graph/composite_graph.py:47-53 | on mirrored lists, trying candidates keeps the lists mirrored |
| Composite.TurnMeaning | swarm/graph/composite_graph.py:47-53 | a candidate is connected exactly when both ends are node objects, it closes no cycle at its turn and it is wanted |
| Composite.RealizedPredsGrow | swarm/graph/composite_graph.py:53 | trying candidates never shortens a predecessor list |
| Composite.RealizedPickedFew | swarm/graph/composite_graph.py:60-70 | at most one candidate is picked per turn |
| Composite.Advance | swarm/graph/composite_graph.py:61-68 | one turn of the loop is one step of Realized and picks at most one candidate |
| Composite.ConnectCandidates | swarm/graph/composite_graph.py:47-53 | the shared loop stops after the wanted number of connections, when candidates run out, or at the first candidate with an end outside the node dictionary; what it did is Realized |
| CompositeGraphs.PruneTurn | swarm/graph/composite_graph.py:73-86 | one turn of the removing loop keeps every list within the node objects |
| CompositeGraphs.PrunedHalted | swarm/graph/composite_graph.py:73-86 | once the removing loop has stopped, later turns change nothing |
| CompositeGraphs.Prune | swarm/graph/composite_graph.py:72-86 | the removing loop runs at most num_remove_edges * 10 turns, as PrunedAfter describes |
| CompositeGraphs.RemovalKeeps | swarm/graph/composite_graph.py:80-84 | removing a learned connection keeps the pruning invariant: only learned edges go, one learned entry per removed edge, output nodes keep a predecessor |
| CompositeGraphs.FailureKeeps | swarm/graph/composite_graph.py:82 | a removal that raises keeps the invariant, and cannot happen on mirrored lists |
| CompositeGraphs.PruneTurnKeeps | swarm/graph/composite_graph.py:73-86 | every turn of the removing loop keeps the invariant |
| CompositeGraphs.PrunedKeeps | swarm/graph/composite_graph.py:73-86 | the removing loop keeps the invariant after any number of turns |
| CompositeGraphs.AddDraws | swarm/graph/composite_graph.py:60-61 | the adding loop draws one potential connection per turn |
| CompositeGraphs.AddedCount | swarm/graph/composite_graph.py:59-70 | when every drawn connection names two known nodes, the adding loop adds num_new_edges edges, or every draw that closes no cycle when fewer do |
| CompositeGraphs.HaltError | swarm/graph/composite_graph.py:76-82 | the removing loop raised exactly when it stopped on a missing node or a failed removal |
| CompositeGraphs.MutateLinks | swarm/graph/composite_graph.py:55-86 | mutate keeps the graph acyclic, keeps output nodes fed, only adds potential and only removes learned connections, draws its counts by the randint ranges, adds at most num_new_edges and removes at most num_remove_edges edges, and when a randint raises changes nothing |
| CompositeGraphs.AddThenPrune | swarm/graph/composite_graph.py:59-86 | the two loops of mutate, once both counts are drawn, keep the same promises |
| CompositeGraphs.UnchangedSound | swarm/graph/composite_graph.py:57-58 | a mutate that raised before changing anything keeps its promises |
| CompositeGraphs.AddingSound | swarm/graph/composite_graph.py:59-70 | a mutate stopped by a KeyError while adding keeps its promises |
| CompositeGraphs.MutationComposes | swarm/graph/composite_graph.py:55-86 | adding then removing keeps the promises of mutate |
| CompositeGraphs.MergeAcyclic | swarm/graph/composite_graph.py:27-37 | putting two acyclic graphs side by side closes no cycle |
| CompositeGraphs.MergeSymmetric | swarm/graph/composite_graph.py:27-37 | putting two graphs with mirrored lists side by side keeps the lists mirrored |
| CompositeGraphs.Drawn | swarm/graph/composite_graph.py:51 | a potential connection is wanted by init exactly when its draw fell below the probability |
| CompositeGraphs.InitLinks | swarm/graph/composite_graph.py:45-53 | init adds exactly the connections whose draw fell below the probability and that close no cycle, keeps the graph acyclic, and raises KeyError at the first connection with an unknown end |
| CompositeGraphs.CompositeGraph.constructor | swarm/graph/composite_graph.py:13-24 | a new composite graph holds only the decision node, which is its output node |
| CompositeGraphs.CompositeGraph.AddGraph | swarm/graph/composite_graph.py:27-37 | add_graph merges the agent's node objects, appends its node ids in order, remembers the graph and appends its input nodes |
| CompositeGraphs.CompositeGraph.Init | swarm/graph/composite_graph.py:45-53 | learned_connections becomes exactly the connections init added, as InitLinks describes, and only the edge lists change |
| CompositeGraphs.CompositeGraph.Mutate | swarm/graph/composite_graph.py:55-86 | the edge lists and learned connections become those MutateLinks computes from the same draws, with the decision node as output node |
| Draws.RandInt | swarm/graph/composite_graph.py:57-58 | `random.randint(lo, hi)` gives a number of the closed range, and raises exactly when the range is empty |
| Draws.Choice | swarm/environment/operations/final_decision.py:94 | `random.choice(xs)` gives an element of xs, and raises exactly when xs is empty |
| Draws.DrawsCoverAll | swarm/graph/composite_graph.py:57-58 | every number of the range and every element is the outcome of some draw, so modelling draws as parameters loses no behaviour |
| Parameterization.Endpoints | swarm/optimizer/edge_optimizer/parameterization.py:39 | node_ids holds exactly the ends of the potential connections |
| Parameterization.NewDistribution | swarm/optimizer/edge_optimizer/parameterization.py:29-43 | __init__ raises exactly for probability 1 (division by zero); otherwise every edge logit is log(p / (1 - p)), one per connection, and the index maps number the node ids in iteration order |
| Parameterization.Idx2Id | swarm/optimizer/edge_optimizer/parameterization.py:40 | node_idx2id maps each position to the id at that position, and nothing else |
| Parameterization.Id2Idx | swarm/optimizer/edge_optimizer/parameterization.py:41 | node_id2idx maps each id to its position, and is the inverse of node_idx2id |
| Parameterization.EnumerationIndexes | swarm/optimizer/edge_optimizer/parameterization.py:39-41 | the two index maps cover exactly the connection ends and are each other's inverse |
| Parameterization.NodeOrder | swarm/optimizer/edge_optimizer/parameterization.py:39-41 | the enumeration of the node ids lists every end of a potential connection once and nothing else |
| Parameterization.EndpointsSnoc | swarm/optimizer/edge_optimizer/parameterization.py:39 | one more connection adds exactly its two ends to the node ids |
| Parameterization.ConnectionDist | swarm/graph/swarm.py:104 | the distribution organize builds raises exactly at probability 1.0; otherwise it is indexed over the potential connections, every edge logit is log(p / (1 - p)) and the order parameters are the torch.randn draws |
| Parameterization.RealizeWith | swarm/optimizer/edge_optimizer/parameterization.py:120-147 | the realizers' shared loop keeps the graph acyclic, adds exactly the connected candidates, connects only wanted cycle-safe ones, and raises at the first candidate whose end find_node cannot find |
| Parameterization.RealizeFull | swarm/optimizer/edge_optimizer/parameterization.py:120-132 | realize_full connects every candidate that is cycle-safe at its turn, skips none, and keeps the graph acyclic |
| Parameterization.RealizeMask | swarm/optimizer/edge_optimizer/parameterization.py:134-147 | realize_mask stops at the shorter of candidates and mask, and connects a candidate exactly when its flag is set and it is cycle-safe |
| Parameterization.Thresholded | swarm/optimizer/edge_optimizer/parameterization.py:107-109 | a threshold of None or 0.0 leaves the probability alone; any other threshold turns it into 1 when it exceeds the threshold and 0 otherwise |
| Parameterization.EdgeProbs | swarm/optimizer/edge_optimizer/parameterization.py:96-109 | one edge probability per logit: sigmoid(logit / temperature), thresholded |
| Parameterization.Draws | swarm/optimizer/edge_optimizer/parameterization.py:110 | a candidate is taken exactly when its random draw lies below its probability |
| Parameterization.ThresholdDecides | swarm/optimizer/edge_optimizer/parameterization.py:108-110 | with a non-zero threshold the draw decides nothing: a candidate is taken exactly when its probability exceeds the threshold |
| Parameterization.LogTerms | swarm/optimizer/edge_optimizer/parameterization.py:106-115 | one log-probability term per candidate considered, each log(p) or log(1 - p) of that candidate's probability |
| Parameterization.TakenTerms | swarm/optimizer/edge_optimizer/parameterization.py:110-115 | exactly the connected candidates contribute log(p); the other considered ones contribute log(1 - p) |
| Parameterization.ArgMax | swarm/optimizer/edge_optimizer/parameterization.py:73 | torch.argmax gives the first position of a largest value |
| Parameterization.Available | swarm/optimizer/edge_optimizer/parameterization.py:67 | avaliable_nodes are exactly the nodes of the map whose in-degree count is 0 |
| Parameterization.OrderLogits | swarm/optimizer/edge_optimizer/parameterization.py:69-70 | the logits are the order parameters of the available nodes in order, and the lookup raises KeyError exactly at an available node that is no connection end |
| Parameterization.LowerInDegrees | swarm/optimizer/edge_optimizer/parameterization.py:80-81 | every successor entry lowers its node's count by one; an entry outside the map raises KeyError |
| Parameterization.RankStep | swarm/optimizer/edge_optimizer/parameterization.py:78-81 | ranking an available node next keeps the ranking bookkeeping, and the node was not ranked before |
| Parameterization.RanksDistinct | swarm/optimizer/edge_optimizer/parameterization.py:78 | as many ranked nodes as turns, each rank below the turn count, no two nodes sharing one |
| Parameterization.RanksTopo | swarm/optimizer/edge_optimizer/parameterization.py:66-81 | on mirrored lists the ranks number every edge's source before its target |
| Parameterization.RankReady | swarm/optimizer/edge_optimizer/parameterization.py:67 | on an acyclic graph with mirrored lists and a closed node map, while a node is unranked some node is available |
| Parameterization.RankTurn | swarm/optimizer/edge_optimizer/parameterization.py:67-81 | one turn picks an available node (the argmax under use_max), keeps the bookkeeping, and fails exactly when no node is available (empty stack) or a logit lookup raises |
| Parameterization.RealizeRanks | swarm/optimizer/edge_optimizer/parameterization.py:62-82 | realize_ranks ranks distinct nodes of the map 0, 1, ... in turn order, ranks sources of edges before targets on mirrored lists, and cannot fail on a rankable graph |
| Parameterization.RankedEdgeSafe | swarm/optimizer/edge_optimizer/parameterization.py:104-111 | an edge from a lower rank to a higher one closes no cycle and keeps the ranks topological |
| Parameterization.ConnectByRank | swarm/optimizer/edge_optimizer/parameterization.py:96-115 | with the learned order, a candidate is added exactly when its tail is ranked before its head and its draw says so; with topological ranks the graph stays acyclic |
| Parameterization.Realize | swarm/optimizer/edge_optimizer/parameterization.py:84-118 | realize appends the log terms of the candidates it considered. Without the learned order it adds exactly the candidates it connected and keeps the graph acyclic. With the learned order it adds exactly the candidates it connected; the graph stays acyclic, with every edge going forward in the ranks, when the lists mirror each other |
| Parameterization.RandomSampleNumEdges | swarm/optimizer/edge_optimizer/parameterization.py:45-60 | the sampled graph stays acyclic, only gains potential connections, stays mirrored, is unchanged when it already has enough edges, and stops with enough edges exactly when it reports so |
| Parameterization.SampleStep | swarm/optimizer/edge_optimizer/parameterization.py:57-59 | a drawn connection that closes no cycle is added with add_successor and add_predecessor and keeps the graph acyclic |
| Swarms.ClearedOk | swarm/graph/swarm.py:67-71 | cutting an agent's inner edges keeps it well formed, keeps its node objects, and only takes edges away |
| Swarms.ClearSuccessors | swarm/graph/swarm.py:68-71 | the loop empties the successor list of every node in the agent's node map and leaves every predecessor list as it was |
| Swarms.ClearingBreaksMirror | swarm/graph/swarm.py:71 | after the cut a successor still lists the node among its predecessors although the node no longer lists it: the two lists stop mirroring each other |
| Swarms.Processed | swarm/graph/swarm.py:63-76 | organize keeps at most one agent per name |
| Swarms.ProcessedMembers | swarm/graph/swarm.py:63-76 | an agent is kept exactly when some name has a registered agent, which it is, cut as asked |
| Swarms.ProcessedFacts | swarm/graph/swarm.py:63-76 | the kept agents are well formed and share no node object with each other or with the decision node |
| Swarms.Collect | swarm/graph/swarm.py:59-72 | the composite graph's node objects are the decision node and those of the kept agents |
| Swarms.CollectOk | swarm/graph/swarm.py:59-72 | adding the kept agents keeps the composite graph well formed and the decision node's operation |
| Swarms.CollectEdges | swarm/graph/swarm.py:72 | the composite graph's edges are exactly the kept agents' edges |
| Swarms.CollectLists | swarm/graph/swarm.py:72 | the node map lists the decision node and then every kept agent's nodes in order; the input nodes are the agents' input nodes in order |
| Swarms.NoEdgeInto | swarm/graph/swarm.py:72 | no kept agent has an edge into the decision node |
| Swarms.PickedSound | swarm/graph/swarm.py:89-102 | a node picked as wired (or not) belongs to a kept agent that wires it so |
| Swarms.PickedComplete | swarm/graph/swarm.py:89-102 | every node a kept agent wires (or not) is picked as such |
| Swarms.CandLists | swarm/graph/swarm.py:89-95 | one list of decision candidates per kept agent, that agent's |
| Swarms.WireAgent | swarm/graph/swarm.py:90-102 | the loop over one agent's nodes adds exactly the static edges into the decision node (successor and predecessor side) and lists exactly the candidate connections of that agent |
| Swarms.AddLinksEdges | swarm/graph/swarm.py:93 | add_successor adds the edge to the successor lists and its mirror to the predecessor lists, nothing else |
| Swarms.WireDecision | swarm/graph/swarm.py:88-102 | the decision-node loops add exactly the static edges of all kept agents and list exactly their decision candidates |
| Swarms.Finish | swarm/graph/swarm.py:78-105 | the decision-node half of organize leaves the node objects and the composite graph organize promises |
| Swarms.DecisionCandidate | swarm/graph/swarm.py:88-95 | with edge optimization, a node of a kept agent is a candidate into the decision node exactly when it is not wired to it |
| Swarms.DecisionEdge | swarm/graph/swarm.py:88-102 | a node of a kept agent has a static edge into the decision node exactly when its agent wires it |
| Swarms.EachNodeOnce | swarm/graph/swarm.py:78-102 | every agent node has either a static edge into the decision node or a candidate connection into it, never both; without edge optimization there are no candidates and exactly the output nodes are wired |
| Swarms.CandidatesBetweenAgents | swarm/graph/swarm.py:79-86 | with edge optimization every ordered pair of nodes from two different kept agents is a candidate, and every candidate not into the decision node is such a pair |
| Swarms.Swarm.constructor | swarm/graph/swarm.py:27-53 | Swarm.__init__ keeps its flags and init_connection_probability, ends organized, and holds the edge distribution of the potential connections |
| Swarms.Swarm.Organize | swarm/graph/swarm.py:55-105 | organize keeps the registered agents in name order, builds the composite graph of the decision node and their node objects with their edges, wires the decision node, enumerates the potential connections and builds the edge distribution over them, which raises exactly at probability 1.0 |
| Swarms.Swarm.Conclude | swarm/graph/swarm.py:104-105 | the swarm keeps the wired composite graph, the potential connections and their edge distribution, which raised exactly at probability 1.0 and otherwise indexes every end of the connections |
| Swarms.AddAll | swarm/graph/swarm.py:63-76 | the loop over the agent names adds exactly the kept agents' graphs, in order |
| Swarms.AddNext | swarm/graph/swarm.py:64-76 | one turn adds the agent for a registered name, and skips an unknown one |
| Swarms.AddAgent | swarm/graph/swarm.py:72-73 | add_graph for one agent appends its nodes and input nodes and merges its node objects |
| Swarms.GraphOf | swarm/graph/swarm.py:65-66 | the agent's own graph object, with the fields its build_graph left |
| Pairings.GridMembers | swarm/graph/swarm.py:84-86 | the pairs of two node lists are every node of the first with every node of the second |
| Pairings.GridSize | swarm/graph/swarm.py:84-86 | two node lists give |xs| * |ys| pairs |
| Pairings.AppendGrid | swarm/graph/swarm.py:84-86 | the two innermost loops append exactly Grid(xs, ys) |
| Pairings.AppendRow | swarm/graph/swarm.py:82-86 | the loop over the second agent appends the pairs from one agent into every other agent |
| Pairings.CrossPairs | swarm/graph/swarm.py:81-86 | the four nested loops produce Cross of the agents' node lists |
| Pairings.CrossSound | swarm/graph/swarm.py:81-86 | every pair joins a node of one agent to a node of a different agent |
| Pairings.CrossComplete | swarm/graph/swarm.py:81-86 | every node of one agent paired with every node of another agent is a pair |
| Memories.OfOperationInMembers | swarm/memory/memory.py:60-61 | a record of one list is kept exactly when its 'operation' field matches |
| Memories.ByOperationMembers | swarm/memory/memory.py:60-61 | query_by_operations returns exactly the stored records whose 'operation' field matches |
| Memories.ByOperationAppend | swarm/memory/memory.py:48-51 | one more record on an existing id's list adds exactly that record to the matches, if it matches |
| Memories.ByOperationFresh | swarm/memory/memory.py:48-51 | a new id's list holds just the record, and its match comes after all earlier ones |
| Memories.AddedMatches | swarm/memory/memory.py:48-51 | add changes the matches of every operation by exactly the added record, if it matches |
| Memories.Memory.constructor | swarm/memory/memory.py:35-37 | a new memory stores nothing |
| Memories.Memory.QueryByOperations | swarm/memory/memory.py:60-61 | the result holds exactly the records stored under some id whose 'operation' field matches |
| Memories.Memory.Add | swarm/memory/memory.py:48-51 | add appends the record to its id's list (created for a new id, which goes last in the key order), leaves every other id's list alone, and adds the record to the matches of its operation |
| Memories.Memory.Clear | swarm/memory/memory.py:99-100 | clear forgets every id, so every query_by_id returns [] |
| Crosswords.CellPosition | swarm/environment/domain/crosswords/env.py:180-186 | cell t of a row clue lies in that row at column t; cell t of a column clue lies in that column at row t |
| Crosswords.GetAns | swarm/environment/domain/crosswords/env.py:180-186 | get_ans gives ten five-letter words: the five rows, then the five columns, letter t of word k being cell t of clue k |
| Crosswords.AnsDetermineBoard | swarm/environment/domain/crosswords/env.py:180-186 | two 25-cell boards have the same answers exactly when they are the same board |
| Crosswords.CountSame | swarm/environment/domain/crosswords/env.py:188-193 | the sum over zip counts agreeing positions, never more than the shorter length |
| Crosswords.CountSameAll | swarm/environment/domain/crosswords/env.py:188-196 | for lists of one length, every position agrees exactly when the lists are equal, so r_game holds exactly when r_letter is 1 |
| Crosswords.EmptyBoard | swarm/environment/domain/crosswords/env.py:31 | a fresh board is 25 '_' cells |
| Crosswords.ParseInt | swarm/environment/domain/crosswords/env.py:209 | int() succeeds only on text that is not blank once stripped |
| Crosswords.ParseDigit | swarm/environment/domain/crosswords/env.py:209 | int() of a single digit is its value |
| Crosswords.ParsePlacement | swarm/environment/domain/crosswords/env.py:200-215 | "hK. word" or "vK. word" with one digit K and five lower-case letters reads as a placement at K of the upper-cased word, across for 'h' |
| Crosswords.ParseAction | swarm/environment/domain/crosswords/env.py:199-209 | a placement's word is word[:5].upper(): at most five letters, none of them lower-case ASCII; a position number int() refuses is reported as such |
| Crosswords.SplitPlacement | swarm/environment/domain/crosswords/env.py:201 | the only ". " of "hK. word" is the one after the position, so the split gives two parts |
| Crosswords.WriteRow | swarm/environment/domain/crosswords/env.py:213 | writing row idx changes exactly the five cells of that row, to the word's letters |
| Crosswords.WriteColumn | swarm/environment/domain/crosswords/env.py:219 | writing column idx changes exactly the five cells of that column, to the word's letters |
| Crosswords.SliceBound | swarm/environment/domain/crosswords/env.py:213 | a Python slice bound is clamped into the list |
| Crosswords.RowWriteResizes | swarm/environment/domain/crosswords/env.py:208-213 | as written, the row write keeps 25 cells only for a five-letter word in rows 1 to 5: "h1. cat" leaves 23 cells, "h6. apple" 30, "h0. apple" inserts the word before the last row, and "h-1. apple" overwrites row 4 |
| Crosswords.RowWriteAgrees | swarm/environment/domain/crosswords/env.py:213 | where the written row write keeps the board's shape, it is exactly WriteRow |
| Crosswords.NewStatus | swarm/environment/domain/crosswords/env.py:224-227 | the status list after a write has ten entries |
| Crosswords.Move | swarm/environment/domain/crosswords/env.py:198-230 | step always advances the counter and keeps a 25-cell board with its answers and ten statuses; an exception or a rejected action changes nothing else |
| Crosswords.StepWrites | swarm/environment/domain/crosswords/env.py:208-220 | a placement that is carried out writes exactly the cells of its clue, and leaves every other cell alone |
| Crosswords.StepKeepsFilled | swarm/environment/domain/crosswords/env.py:210-212 | with allow_change=False a filled letter never changes: the step raises instead |
| Crosswords.StepRaisesOnConflict | swarm/environment/domain/crosswords/env.py:210-218 | with allow_change=False a fitting placement raises exactly when it would change a filled letter |
| Crosswords.StepStatus | swarm/environment/domain/crosswords/env.py:224-227 | after a write the written clue is filled, a clue with an altered letter is changed, and the others keep their status |
| Crosswords.UntouchedNotAltered | swarm/environment/domain/crosswords/env.py:226 | a clue whose letters did not change is never marked changed |
| Crosswords.ObserveMeaning | swarm/environment/domain/crosswords/env.py:188-196 | done holds exactly when the board is solved or 20 steps are spent; the game is won exactly when every letter, and exactly when every word, agrees |
| Crosswords.Observe | swarm/environment/domain/crosswords/env.py:183-196 | a step that writes replies with letter and word agreement counts of at most 25 and 10, and is done exactly when the game is won or 20 steps are spent |
| Crosswords.PyIndex | swarm/environment/domain/crosswords/env.py:30 | file[idx] succeeds exactly for -n <= idx < n, with negative indices counting from the end |
| Crosswords.CrosswordsEnv.constructor | swarm/environment/domain/crosswords/env.py:12-18 | a new environment has no puzzle chosen (idx -1) and is extendable |
| Crosswords.CrosswordsEnv.Copy | swarm/environment/domain/crosswords/env.py:12-43 | a deep copy has the same fields as the original |
| Crosswords.CrosswordsEnv.Reset | swarm/environment/domain/crosswords/env.py:23-43 | reset stores idx first, raises IndexError for an index outside the file, and otherwise loads the puzzle with an empty board, unfilled statuses and no steps, each replaced by its argument when given |
| Crosswords.CrosswordsEnv.Load | swarm/environment/domain/crosswords/env.py:30-42 | the puzzle fields of the chosen entry, the given board with the answers it spells, statuses and step count |
| Crosswords.CrosswordsEnv.Step | swarm/environment/domain/crosswords/env.py:198-230 | step leaves the fields Move computes and returns its reply or exception |
| Crosswords.CrosswordsEnv.Scores | swarm/environment/domain/crosswords/env.py:188-196 | r_word and r_letter as counts out of 10 and 25; r_game holds exactly when either is full |
| CrosswordParser.ConfidenceOf | swarm/environment/domain/crosswords/parser.py:10 | the confidence word found is one of certain, high, medium or low followed by ")", and none is found exactly when none of them follows |
| CrosswordParser.ParseLine | swarm/environment/domain/crosswords/parser.py:8-20 | a line parses exactly when it matches the pattern for some confidence; the action is the lower-cased "pos. word" and the score that confidence's value |
| CrosswordParser.Parsed | swarm/environment/domain/crosswords/parser.py:22-29 | the lines that match, parsed, never more than the lines |
| CrosswordParser.ParsedFrom | swarm/environment/domain/crosswords/parser.py:25-29 | every parsed candidate comes from a line of the response that parses to it |
| CrosswordParser.InsertSorted | swarm/environment/domain/crosswords/parser.py:30 | inserting into a sorted list keeps it sorted by descending confidence and adds exactly the inserted candidate |
| CrosswordParser.InsertStable | swarm/environment/domain/crosswords/parser.py:30 | insertion keeps the order of the candidates within each confidence |
| CrosswordParser.SortDescCorrect | swarm/environment/domain/crosswords/parser.py:30 | sorted(..., reverse=True) puts higher confidences first, is a permutation, and keeps the order within each confidence (stability) |
| CrosswordParser.ParseResponseCorrect | swarm/environment/domain/crosswords/parser.py:7-30 | parse_response returns a permutation of the matching lines' candidates, sorted by descending confidence, stable, and never more than the lines |
| CrosswordParser.ParseResponse | swarm/environment/domain/crosswords/parser.py:7-30 | the candidates come sorted by descending confidence, never more than the response has lines |
| CrosswordParser.CandidateFits | swarm/environment/domain/crosswords/parser.py:10 | every candidate the parser yields is a placement step accepts: a clue number 1 to 5 and a five-letter word |
| CrosswordSolvers.Actions | swarm/environment/operations/crosswords/brute_force_step.py:50 | the candidates' actions, in order |
| CrosswordSolvers.Scores | swarm/environment/operations/crosswords/brute_force_step.py:50 | the candidates' confidences, in the same order |
| CrosswordSolvers.BruteForce | swarm/environment/operations/crosswords/brute_force_step.py:27-42 | brute_force_optimize ends on a well-formed environment state |
| CrosswordSolvers.BruteForceNext | swarm/environment/operations/crosswords/brute_force_step.py:30-42 | one level of the recursion: the candidate is taken only when its step does not raise and the total with it is strictly greater, totals being exact tenths |
| CrosswordSolvers.Apply | swarm/environment/operations/crosswords/brute_force_step.py:27-42 | the candidates a plan marks, stepped in order with allow_change=False, leave a well-formed environment state when none of their steps raises |
| CrosswordSolvers.BruteForceOptimal | swarm/environment/operations/crosswords/brute_force_step.py:27-42 | no choice of candidates whose steps all succeed scores more than brute_force_optimize |
| CrosswordSolvers.BruteForceAttained | swarm/environment/operations/crosswords/brute_force_step.py:27-42 | the returned score and board are those of one choice of candidates whose steps all succeed; no candidates give (0, env) |
| CrosswordSolvers.ApplyKeepsFilled | swarm/environment/operations/crosswords/brute_force_step.py:34 | every board a choice of candidates reaches with allow_change=False keeps the letters already filled |
| CrosswordSolvers.BruteForceKeepsFilled | swarm/environment/operations/crosswords/brute_force_step.py:27-42 | the board brute_force_optimize returns keeps every letter that was filled |
| CrosswordSolvers.Greedy | swarm/environment/operations/crosswords/greedy_steps.py:32-36 | the greedy loop advances the step counter once per candidate, also for those whose step raises |
| CrosswordSolvers.GreedyKeepsFilled | swarm/environment/operations/crosswords/greedy_steps.py:32-36 | greedy steps never change a letter that was filled |
| CrosswordSolvers.BruteForceOptimize | swarm/environment/operations/crosswords/brute_force_step.py:27-42 | on the environment objects, the returned score and environment are those of BruteForce, and the environment passed in is stepped only by the first candidate |
| CrosswordSolvers.TryFirst | swarm/environment/operations/crosswords/brute_force_step.py:33-41 | the take branch steps the given environment once; its result is the later branch's exactly when the step does not raise and the later total is strictly greater, and the branch without the candidate otherwise |
| CrosswordSolvers.BruteForceStep | swarm/environment/operations/crosswords/brute_force_step.py:44-52 | _execute returns a new environment holding BruteForce of the first max_candidates parsed candidates |
| CrosswordSolvers.GreedySteps | swarm/environment/operations/crosswords/greedy_steps.py:25-38 | _execute returns a new environment stepped with every parsed candidate in order, as Greedy says |
| Plans.RemoveQuotes | swarm/environment/prompt/plan.py:72 | replace('"', '') leaves no quote and never lengthens the text |
| Plans.FallbackMeaning | swarm/environment/prompt/plan.py:68-75 | without a colon the input is {'Inputs': s}; with one, the single key is the stripped text before the first colon, and its values joined with ", " give back the cleaned text after it, none holding ", " or a quote |
| Plans.Fallback | swarm/environment/prompt/plan.py:68-75 | the fallback dictionary always has exactly one key |
| Plans.ParseOpsShape | swarm/environment/prompt/plan.py:51-77 | tools, targets and inputs get one entry each per operation line, in step; the last input assigned is the last one listed |
| Plans.OperationStep | swarm/environment/prompt/plan.py:52-77 | an item that is not a string of three '###' parts changes nothing; otherwise, unless it raises, the stripped tool and target are appended, and one input dictionary is appended and becomes the last one assigned |
| Plans.ParseOps | swarm/environment/prompt/plan.py:51-77 | the loop can raise only when the list holds an operation line |
| Plans.OtherLiteralRepeats | swarm/environment/prompt/plan.py:63-67 | a literal that is not a dict repeats the previous operation's input, and raises (unbound input_dict) when there is none |
| Plans.OperationParser | swarm/environment/prompt/plan.py:42-79 | raises ValueError for a non-list; otherwise returns the tools, purposes and inputs of the operation lines as the loop computes them, or the exception the loop raised |
| Plans.ParseOpsRaised | swarm/environment/prompt/plan.py:51-77 | once the loop raises, the whole list raises that exception |
| Plans.ScanOperations | swarm/environment/prompt/plan.py:89-104 | every collected operation is a stripped line that is not '====', not an 'END' line and holds neither the label nor the header; never more operations than lines |
| Plans.ScanLines | swarm/environment/prompt/plan.py:94-104 | the collected plan text is empty or ends with the space added after each plan line; a line holding 'Plan:' leaves the loop in the plan section |
| Plans.PlanTextAsWrittenLosesLetters | swarm/environment/prompt/plan.py:106 | as written, the plan "Plan:analyze the file " comes out as "yze the file" |
| Plans.LabelCharsStripped | swarm/environment/prompt/plan.py:106 | stripping the characters of "Plan:" from "Plan:analyze the file " leaves "yze the file " |
| Plans.PlanTextKeepsBody | swarm/environment/prompt/plan.py:106 | the corrected plan text of "Plan:" + body is the stripped body, whatever letters it starts with |
| Plans.PlanText | swarm/environment/prompt/plan.py:106 | the corrected plan text neither starts nor ends with whitespace and is no longer than the collected text |
| Plans.PlanTextAsWritten | swarm/environment/prompt/plan.py:106 | as written, the plan text neither starts nor ends with whitespace |
| Plans.PlanTextKeepsLetters | swarm/environment/prompt/plan.py:106 | the corrected text of "Plan:analyze the file " is "analyze the file" |
| Plans.PlanParser | swarm/environment/prompt/plan.py:82-116 | ValueError for a non-string, a blank input, an empty plan or no operation line; otherwise the plan text and what operation_parser makes of the operation lines |
| Materials.Contributions | swarm/environment/prompt/common.py:8-20 | one contribution per dictionary entry, in dictionary order |
| Materials.ConcatAppend | swarm/environment/prompt/common.py:8-20 | the loop over two runs of entries gives the first run's text followed by the second's, or the first exception |
| Materials.BlocksAppend | swarm/environment/prompt/common.py:8-20 | the blocks of two runs of entries are the first run's blocks followed by the second's |
| Materials.Blocks | swarm/environment/prompt/common.py:8-20 | the blocks raise exactly when the contribution of some entry raises |
| Materials.ConcatRaises | swarm/environment/prompt/common.py:8-20 | the loop over the pieces raises exactly when one of them is an exception |
| Materials.Ignored | swarm/environment/prompt/common.py:9-16 | the 'task' entry, a value carrying the WebSearch marker, and a non-string key add nothing to the question |
| Materials.OneBlock | swarm/environment/prompt/common.py:15-20 | a string value under another key adds exactly one reference block holding the stripped value, unless that is blank |
| Materials.CombineShape | swarm/environment/prompt/common.py:5-27 | the question starts with the 'task' text (or the default) and, with avoid_vague, ends with the request, added once |
| Materials.Combine | swarm/environment/prompt/common.py:5-27 | get_combine_materials raises exactly when a block raises, and with avoid_vague the question ends with the request for a specific answer |
| Materials.GetCombineMaterials | swarm/environment/prompt/common.py:5-27 | get_combine_materials returns what Combine describes |
| Materials.ReferenceBlocks | swarm/environment/prompt/common.py:8-20 | the loop returns the blocks Blocks describes, or its first exception |
| Materials.ConcatRaised | swarm/environment/prompt/common.py:8-20 | once an entry raises, the whole loop raises that exception |
| HumanEval.NonBlank | swarm/environment/operations/humaneval/code_writing.py:47 | the kept lines are stripped, non-blank, and never more than the prompt's lines |
| HumanEval.ExamplesBound | swarm/environment/operations/humaneval/code_writing.py:49-58 | extract_example never yields more asserts than there are '>>>' lines |
| HumanEval.Examples | swarm/environment/operations/humaneval/code_writing.py:46-58 | every example extract_example yields is an assert statement |
| HumanEval.ExamplesFromPairs | swarm/environment/operations/humaneval/code_writing.py:51-56 | every assert pairs a '>>>' line (minus its first four characters) with the line right after it |
| HumanEval.ExpectedLineConsumed | swarm/environment/operations/humaneval/code_writing.py:54 | the expected line is consumed even when it is itself a '>>>' line: two calls in a row give one assert |
| HumanEval.ExtractExample | swarm/environment/operations/humaneval/unitest_generation.py:36-48 | the iterator loop over the non-blank stripped prompt lines returns what Examples describes (the same code in code_writing.py:46-58) |
| HumanEval.GetMessages | swarm/environment/operations/humaneval/code_writing.py:98-105 | the system prompt, then one user/assistant pair per demonstration in order, then the problem as the last user message |
| Accuracies.Accuracy.constructor | experiments/evaluator/accuracy.py:3-5 | both counts start at zero |
| Accuracies.Accuracy.Update | experiments/evaluator/accuracy.py:7-10 | one more answer, and one more correct one exactly when the prediction equals the target |
| Accuracies.Accuracy.Get | experiments/evaluator/accuracy.py:12-13 | get divides by zero exactly when nothing was counted; otherwise it is the share of correct answers, between 0 and 1 |
| Mmlu.RecordToSwarmInput | experiments/evaluator/datasets/mmlu_dataset.py:63-73 | the input dictionary holds only 'task', the question followed by the four labelled options |
| Mmlu.TaskText | experiments/evaluator/datasets/mmlu_dataset.py:65-71 | the question text starts with the question and a newline, and ends with a newline |
| Mmlu.TaskLines | experiments/evaluator/datasets/mmlu_dataset.py:65-71 | when no field holds a newline, the lines of the 'task' text are the question and "Option A: ..." to "Option D: ...", then the empty piece after the final newline |
| Mmlu.TaskJoin | experiments/evaluator/datasets/mmlu_dataset.py:65-71 | the 'task' text is those six pieces joined with newlines |
| Mmlu.PostprocessAnswer | experiments/evaluator/datasets/mmlu_dataset.py:75-85 | a processed answer is at most one character long |
| Mmlu.PostprocessMeaning | experiments/evaluator/datasets/mmlu_dataset.py:75-85 | the answer is the first character of the string, or of the list's first element; "" for an empty list or string; an exception exactly when no string is found |
| Mmlu.PostprocessIdempotent | experiments/evaluator/datasets/mmlu_dataset.py:75-85 | post-processing a processed answer changes nothing |
| FinalDecisions.RandomChoice | swarm/environment/operations/final_decision.py:97-102 | RandomChoice raises exactly on no inputs; otherwise the response is one of the answers |
| FinalDecisions.CountPositive | swarm/environment/operations/final_decision.py:89-90 | an answer has a positive Counter count exactly when it occurs among the answers |
| FinalDecisions.DistinctMeaning | swarm/environment/operations/final_decision.py:90-91 | the Counter's keys are the answers, each exactly once |
| FinalDecisions.MaxCountMeaning | swarm/environment/operations/final_decision.py:91-92 | max_freq bounds every answer's count and is reached by some answer |
| FinalDecisions.WithCountMeaning | swarm/environment/operations/final_decision.py:93 | the list comprehension keeps exactly the answers whose count is max_freq |
| FinalDecisions.MostFrequentMeaning | swarm/environment/operations/final_decision.py:89-93 | the equally frequent answers are exactly the answers no other answer outnumbers, and there is one whenever there is an answer |
| FinalDecisions.MajorityVoteCorrect | swarm/environment/operations/final_decision.py:86-95 | MajorityVote raises exactly on no inputs; otherwise the response has maximal frequency, and every answer of maximal frequency is the response for some draw |
| FinalDecisions.MajorityVote | swarm/environment/operations/final_decision.py:86-94 | MajorityVote raises exactly on no inputs; otherwise the response is one of the answers |
| FinalDecisions.UnanimousVote | swarm/environment/operations/final_decision.py:86-95 | when every answer is the same, the vote returns it whatever the draw |
| FinalDecisions.Put | swarm/environment/operations/final_decision.py:58-61 | assigning a key never removes an entry |
| FinalDecisions.PutLookup | swarm/environment/operations/final_decision.py:58-61 | after `materials[k] = v` the key holds v and every other key keeps its value |
| FinalDecisions.OutputsNone | swarm/environment/operations/final_decision.py:55-58 | a key that no input's operation names gathers no output |
| FinalDecisions.GatheredMeaning | swarm/environment/operations/final_decision.py:53-61 | when no input uses the reserved names 'task' or 'files' as its operation, the loop never raises, and every key holds what the key-by-key reference says: the last input's task, the last FileAnalyse input's files, or the outputs appended under that operation, each with a newline, in order |
| FinalDecisions.AbsorbStep | swarm/environment/operations/final_decision.py:55-61 | one iteration of the loop keeps the materials equal to the reference, key by key |
| FinalDecisions.Absorb | swarm/environment/operations/final_decision.py:55-61 | one iteration raises only for an operation other than FileAnalyse, whose material cannot be extended; afterwards 'task' holds this input's task |
| FinalDecisions.Gathered | swarm/environment/operations/final_decision.py:53-61 | after the loop over one or more inputs, 'task' holds the last input's task |
| FinalDecisions.GatheredRaised | swarm/environment/operations/final_decision.py:55-61 | once an iteration raises, meta_prompt raises that exception |
| FinalDecisions.NoInputsQuestion | swarm/environment/operations/final_decision.py:53-63 | with no inputs the question is the default task followed by the request for a specific answer |
| FinalDecisions.Question | swarm/environment/operations/final_decision.py:53-63 | the question always ends with the request for a specific answer, and an exception of the loop is the question's exception |
| FinalDecisions.FinalDecision.constructor | swarm/environment/operations/final_decision.py:53 | a node starts with no materials |
| FinalDecisions.FinalDecision.MetaPrompt | swarm/environment/operations/final_decision.py:47-69 | the question is the combination of the materials the loop gathers, or the loop's exception; the node keeps the gathered materials |
| Agents.ChainShape | swarm/environment/agents/crosswords/brute_force_opt.py:18-27 | the chain built by linking each new node after the previous one gives every node exactly its neighbours in the chain and its kind |
| Agents.ChainSymmetric | swarm/graph/node.py:71-75 | the successor and predecessor lists of a chain mirror each other |
| Agents.ChainAcyclic | swarm/environment/agents/crosswords/reflection.py:19-35 | a chain built by the builders has no cycle |
| Agents.ChainEdges | swarm/graph/graph.py:71-76 | num_edges of a chain is one less than its number of nodes |
| Agents.EdgeCount | swarm/graph/graph.py:71-76 | the successor count over the first m nodes of a chain is m, or m - 1 once the last node is included |
| Agents.ChainGraph | swarm/environment/agents/crosswords/reflection.py:17-38 | a chain of distinct nodes is a well-formed agent graph: mirrored lists without repeats, no cycle, nodes - 1 edges, a first node without predecessor, a newest node without successor, each node of its kind |
| Agents.LinksExtend | swarm/environment/agents/crosswords/reflection.py:21-28 | adding a new node and linking the chain's last node to it extends the chain by one |
| Agents.FirstEdge | swarm/graph/node.py:71-75 | add_successor from a node without successors to one without predecessors gives each exactly the other |
| Agents.Create | swarm/environment/agents/cot.py:20-25 | a node object created after the chain and linked after its last node extends the chain, outside the node map |
| Agents.Admit | swarm/environment/agents/cot.py:30-31 | add_node of the newest object puts it in the node map after the others |
| Agents.Append | swarm/environment/agents/crosswords/reflection.py:21-28 | one loop body: a node created, added to the node map and linked after the last node extends the chain |
| Agents.Step | swarm/environment/agents/crosswords/reflection.py:21-28 | one iteration extends the chain by a node of the kind, which becomes last_step |
| Agents.GreedyRun | swarm/environment/agents/crosswords/reflection.py:20-28 | the inner loop adds num_inner_iters GreedySteps to the chain, the last of which is last_step |
| Agents.Reflect | swarm/environment/agents/crosswords/reflection.py:29-35 | a Reflection becomes the next node of the chain, linked after last_step when there is one |
| Agents.Round | swarm/environment/agents/crosswords/reflection.py:19-35 | one outer iteration adds the inner GreedySteps and, before the last round, a Reflection |
| Agents.ReflectionCounts | swarm/environment/agents/crosswords/reflection.py:19-35 | after r rounds there are r * num_inner_iters GreedySteps and one Reflection per round before the last |
| Agents.ReflectionShape | swarm/environment/agents/crosswords/reflection.py:17-38 | with at least one inner iteration the agent has (R + 1) * I GreedySteps and R Reflections, beginning and ending with GreedySteps |
| Agents.ReflectionFirst | swarm/environment/agents/crosswords/reflection.py:19-28 | the first node of the reflection agent is a GreedySteps |
| Agents.ReflectionLength | swarm/environment/agents/crosswords/reflection.py:19-35 | the number of nodes after r rounds is r * num_inner_iters plus the Reflections so far |
| Agents.ReflectionBudget | swarm/environment/agents/crosswords/reflection.py:19-35 | each round's nodes fit in the number of nodes the builder creates |
| Agents.CrosswordsReflection | swarm/environment/agents/crosswords/reflection.py:17-38 | build_graph succeeds exactly when num_reflections >= 0 and num_inner_iters >= 1, building the chain of ReflectionKinds with its first node as input and its last as output; otherwise it raises with the nodes added so far |
| Agents.ToTShape | swarm/environment/agents/crosswords/tot.py:19-32 | CrosswordsToT has max(depth, 1) BranchingSteps followed by one ReturnAll |
| Agents.CrosswordsToT | swarm/environment/agents/crosswords/tot.py:19-32 | build_graph makes the chain of BranchingSteps and a ReturnAll, with the first step as input node and the ReturnAll as output node |
| Agents.CrosswordsBruteForceOpt | swarm/environment/agents/crosswords/brute_force_opt.py:16-27 | build_graph makes a chain of num_iters BruteForceSteps with the first as input node and the last as output node; with no iteration both stay empty |
| Agents.CotShape | swarm/environment/agents/cot.py:14-25 | exactly one thought, the last, has is_last_step |
| Agents.CotOthers | swarm/environment/agents/cot.py:19-25 | every thought but the last is an ordinary CoTStep |
| Agents.Thought | swarm/environment/agents/cot.py:20-25 | one thought is created with is_last_step exactly for the last index and linked after the previous thought |
| Agents.CotGraph | swarm/environment/agents/cot.py:12-31 | build_graph raises on fewer than two thoughts before creating anything; otherwise it builds the chain of thoughts, first as input node and last as output node, added to the node map in order |
| Agents.Cot | swarm/environment/agents/cot.py:12-31 | COT builds a chain of three thoughts from the first to the last step |
| Agents.CodeReact | swarm/environment/agents/humaneval/code_react.py:15-27 | build_graph makes a chain of num_reacts + 1 CodeWritings, first as input node and last as output node; with no react it raises after setting the input node |
| Text.FindFirst | swarm/environment/prompt/plan.py:71 | `split(":", 1)` cuts at the first occurrence of the separator; the search finds its first occurrence, and finds nothing only when it does not occur |
| Text.Split | swarm/environment/prompt/plan.py:89 | str.split always gives at least one piece |
| Text.SplitJoin | swarm/environment/prompt/plan.py:89 | joining the pieces of `split(sep)` with sep gives the string back |
| Text.JoinSplit | experiments/evaluator/datasets/mmlu_dataset.py:65-71 | splitting on a character the pieces joined with it gives the pieces back when none holds that character |
| Text.SplitPieces | swarm/environment/prompt/plan.py:72 | no piece of a split contains the separator |
| Text.TrimLeftSpec | swarm/environment/prompt/plan.py:102 | lstrip removes a prefix made of the characters and stops at the first other one |
| Text.TrimRightSpec | swarm/environment/prompt/plan.py:102 | rstrip removes a suffix made of the characters and stops at the last other one |
| Text.StripSlice | swarm/environment/prompt/plan.py:72 | strip(chars) keeps one slice of the string, removing only characters of the set, with no such character left at either end |
| Text.Strip | swarm/environment/prompt/plan.py:102 | str.strip leaves a string no longer than its input that neither starts nor ends with whitespace |
| Text.BlankStrip | swarm/environment/prompt/plan.py:86 | `not s.strip()` holds exactly when every character is whitespace |
| Text.Lower | swarm/environment/domain/crosswords/parser.py:29 | lower() maps each character and keeps the length |
| Text.Upper | swarm/environment/domain/crosswords/env.py:206 | upper() maps each character and keeps the length |
| Text.Take | swarm/environment/domain/crosswords/env.py:206 | s[:n] is the prefix of length min(n, len(s)) |
| Text.Drop | swarm/environment/domain/crosswords/env.py:209 | s[n:] is what follows s[:n] |

## Left out

- Graphs.Graph.AddNode: on an id collision it returns `added == false` and leaves the graph unchanged. The source draws a fresh uuid and adds the node (graph.py:91-96). Ids are parameters here, so a redraw has nothing to model.
- CompositeGraphs.CompositeGraph.AddGraph requires that the agent's node ids are new to the composite graph. Swarms.Separate requires that agents' node ids never collide with each other or with the decision node. The source's ids are random uuids, and add_node renames an id on collision.
- Swarms.Swarm.Organize copies agent graphs by value. Two things are not modelled:
  - The source wires the decision node through the node objects the agents share (swarm.py:93 and swarm.py:102), so edges added through the composite graph are also seen by the agent objects.
  - `graph.memory = self.memory` in add_graph: the composite graph's memory is not shared with the agents.
- Swarms.Swarm.constructor: where EdgeWiseDistribution raises (probability 1.0), the source's constructor raises and no swarm exists. The model's swarm is built and holds the error in `connectionDist`. The node ids are numbered in the order they first appear among the connections (Parameterization.NodeOrder), where the source iterates a Python set.
- Graphs.Graph.Run and Digraph.ReachesAny require an acyclic graph. On a cycle that does not reach an output node, `is_node_useful` (graph.py:116-123) recurses until RecursionError. Every builder and realizer here keeps graphs acyclic.
- Parameterization.RandomSampleNumEdges: the resampling loop is bounded by a fuel parameter. The source's `while True` can loop forever when the draws never give an acceptable count. With no fuel left, the model reports that it gave up.
- Text.Strip, Text.Lower and Text.Upper know ASCII only:
  - Python also counts characters such as ' ' as whitespace.
  - Python's `'ß'.upper()` is "SS".
- Crosswords.ParseInt accepts ASCII digits only, where int() accepts every Unicode decimal digit.
- Crosswords.Move rejects every placement outside h1-h5 and v1-v5, and every word shorter than five letters, with the position or format message. Only the step counter changes. The source does other things for these inputs:
  - A column write whose extended slice `board[idx::5]` (env.py:219) does not hold as many cells as the word has letters raises ValueError. Examples: "v0. apple" and "v-1. apple" (a slice of 1 cell), "v6. apple" (4 cells), and "v1. cat" (5 cells, 3 letters).
  - A column write whose slice size happens to match the word goes through. "v6. pear" writes cells 5, 10, 15 and 20, then raises IndexError at `self.status[10]` (env.py:226), leaving the board changed. "v0. a" writes cell 24 and then marks clue h5 as filled.
  - With allow_change=False, the conflict loops (env.py:210-211 and env.py:216-217) read the board before any write. "h6. apple" raises IndexError at cell 25 at once. "v6. apple" raises IndexError at cell 25 unless an earlier cell of the column conflicts. A short word raises IndexError at `word[i]` when cell i of the clue is filled.
  - Row writes outside h1-h5, or of a short word, resize the board. The status update then marks some other clue. The model replaces both with the corrected rejection (see Findings).
- CrosswordSolvers.BruteForce and CrosswordSolvers.BruteForceNext add confidences as exact tenths, where the source adds floats (0.5, 0.2 and 0.1). Two choices whose exact totals tie can therefore differ in the source by rounding. For example, take the candidates h1, v1, v2, v3, v4 and v5 in that order. Let h1 have confidence 0.5 and clash with v1, v2 and v5, where v1 to v4 have 0.2 and v5 has 0.1. The source adds the scores from the last candidate back: 0.9 with h1 and 0.8999999999999999 without it, so it takes h1. In the model both totals are nine tenths, and on a tie the choice without h1 stays.
- CrosswordSolvers.BruteForceNext compares the same exact tenths. At a total that float rounding would split, its choice differs from the source's in the same way.
- Plans.ParseOps: `ast.literal_eval` is the parameter `eval: string -> Literal`. What it accepts and how it fails are not modelled beyond that.
- FinalDecisions.Question: a 'task' material that is not a string raises a TypeError before any block is combined. The source raises a TypeError for None and for most other values too, but at a later point and with a different message. A list of strings as task makes get_combine_materials return a list instead of raising.
- Time and numbers:
  - asyncio timeouts are per-attempt oracles: the model is told whether an attempt finished in time, not how long it took.
  - Probabilities are reals.
  - The parser's confidences are integer tenths. One confidence compares with another exactly as the source's floats do, but sums of them need not (see CrosswordSolvers.BruteForce).
- Not modelled:
  - LLM calls and prompt texts beyond the combined materials.
  - File and network I/O, logging, `print` and visualization.
  - `Memory.query_by_similarity` and the retrieval helpers.
  - Torch tensors and gradients: the REINFORCE update of the edge probabilities is not modelled, only the realizations it samples.
  - The crosswords `render`.
  - The evaluators' loops over datasets.

## Findings

| source | as written | input that shows it | evidently intended | confidence | as-written member | corrected member |
|---|---|---|---|---|---|---|
| swarm/environment/domain/crosswords/env.py:208-213 | `self.board[idx*5:(idx+1)*5] = list(word)` replaces a slice whatever the lengths, so the board grows, shrinks or shifts | with allow_change=True: "h1. cat" leaves 23 cells, "h6. apple" 30, "h0. apple" inserts the word at cell 20, and "h-1. apple" (int("-1") - 1 is -2) overwrites row 4 | reject a position outside h1-h5 and a word that is not five letters, keeping a 25-cell board | not executed | Crosswords.RowWriteResizes | Crosswords.Move (with Crosswords.RowWriteAgrees) |
| swarm/environment/prompt/plan.py:106 | `plan.strip("Plan:")` strips every 'P', 'l', 'a', 'n' and ':' from both ends | "Plan:analyze the file " becomes "yze the file" | remove the "Plan:" label once, then surrounding whitespace | not executed | Plans.PlanTextAsWrittenLosesLetters | Plans.PlanTextKeepsBody |
