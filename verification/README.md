# ruby-raft node handler in Dafny

This project models the message handler of one node of the ruby-raft
simulator (class `Raft` in `lib/raft.rb`) and the cluster builder of its test
helpers (`generate_cluster` in `spec/helpers.rb`). Properties of both are
proved.

A node's inbox loop takes one message at a time and runs exactly one handler
to completion. Here that loop body is the pure function `Raft.Step`, which
maps a node state, the node's neighbour list and a message to:

- the new node state: status, leader, votes, log and inbox log;
- the messages sent;
- whether the loop ended, either on a `:stop` or through an exception.

On top of `Step` there are four layers:

- `Cluster` delivers messages synchronously.
- `Scenarios` proves the two behaviours the test suite checks: one timeout
  elects exactly one leader, and a proposal reaches every log.
- `Network` lets any node take any in-flight message in any order, time out
  at any moment, receive a proposal at any time or send heartbeats while
  leading. It proves that no handler ever raises in any such run. It
  has no action that sends `:stop`, so there a loop could end only by an
  exception.
- `SplitVote` exhibits one such run in which two nodes lead at once.

Modules, one per file:

| file | module | models |
|---|---|---|
| optional.dfy | `Optional` | nil-able values |
| messages.dfy | `Messages` | node ids, the `{sender, type, content}` message, `send_to_all_neighbors` |
| raft.dfy | `Raft` | the node state, every handler, the dispatch, the inbox loop |
| raft_properties.dfy | `RaftProperties` | properties of one step and of whole runs of the inbox loop |
| helpers.dfy | `Helpers` | `generate_cluster` |
| cluster.dfy | `Cluster` | a generated cluster, synchronous delivery, delivery in rounds |
| scenarios.dfy | `Scenarios` | the election and replication behaviours of `spec/node_spec.rb` |
| network.dfy | `Network` | arbitrary interleavings; no handler ever raises |
| split_vote.dfy | `SplitVote` | one interleaving with two simultaneous leaders |

## Modelling choices

- **Node identity.** A node is a number. The Ruby code compares nodes by
  object identity, and node `i` of a generated cluster is number `i`. A
  vote's candidate and a `:set_leader` sender are node references: `NodeRef(id)`
  and the message's `sender`.
- **`@votes` starts nil.** It is `None` until the first
  `request_leader_election`. `@votes << …` on nil raises, and that is the
  fault `VotesUnset`.
- **The two role checks are modelled as faults.** The `raise` in
  `propagate_state` is `NotLeader`; the one in `request_leader_election` is
  `AlreadyLeader`. `Step` proves that neither is ever reached, and that the
  only fault `Step` can report is `VotesUnset`. `Network.NoHandlerEverRaises`
  proves that `VotesUnset` cannot happen either, in any run of a generated
  cluster.
- **The timeout message carries `Nil`.** Its content in the source is the
  float timeout length, which only a log line reads.
- **Quorum** is `approvals >= neighbours / 2` with integer division, as on
  line 97.
- **Delivery drops messages no live node can take.** An envelope addressed
  outside the cluster, or to a node whose loop has ended, is dropped.
- **`handle_timeout` sets `:voting` and then `:electing`.**
  `request_leader_election` overwrites the `:voting` with `:electing`, so a
  timed-out node ends `:electing`.

The model follows the code, which is a simplification of Raft as usually
described. It has no terms, no one-vote-per-term rule, no commit round with
acknowledgements, and no quorum that counts the node itself. Instead:

- A node answers every election request with a vote for the requester.
- A leader appends a proposal at once and sends `:log_state`.
- A candidate needs `neighbours / 2` approvals among its neighbours' votes.

An election is not possible in every cluster size. A node with no
neighbours never becomes leader. It tallies only when its vote count equals
its neighbour count, and the count is at least one once a vote is recorded.
`RaftProperties.LoneNodeNeverLeads` proves this, and the election lemma
requires at least two nodes.

The test at `spec/node_spec.rb:59` writes `message[:type] = :propose_state`,
an assignment, where a comparison is meant. As written, that check holds for
any non-empty inbox log. `Scenarios.ForwardedProposalReachesEveryLog` states
the intended check: the forwarded proposal is in the leader's inbox log.

## Model

| member | source | states |
|---|---|---|
| Raft.Step | lib/raft.rb:19-43 | the inbox log gains the message exactly when its type is not timeout, heartbeat or stop; the loop ends on a stop and only on a stop, except for a vote arriving before any election was requested (nil `@votes`); the two role-check raises are never reached; heartbeats and unknown types change nothing and send nothing; a node that has a vote list keeps one |
| Raft.RunLoop | lib/raft.rb:19-43 | no contract of its own: the inbox loop with any loop body, taking messages in order and none after the first that ends the loop; RaftProperties.RunOnlyAppends, RunRecords, RunEndedThen and RunRunningThen state its properties for any body |
| Raft.Loop | lib/raft.rb:19-43 | no contract of its own: the inbox loop whose body is `Step`; RaftProperties.LoopOnlyAppends, LoopRecords and NothingAfterStop state its properties |
| Raft.Init | lib/raft.rb:11-15 | no contract of its own: a fresh node follows nobody, has no vote list (`@votes` is never assigned in `initialize`) and empty logs; RaftProperties.FreshNode states what follows |
| Raft.Recorded | lib/raft.rb:21 | no contract of its own: every type except timeout, heartbeat and stop is written to the inbox log, as Raft.Step and RaftProperties.LoopRecords state |
| Raft.Quorum | lib/raft.rb:97 | no contract of its own: approvals reach half the neighbour count, rounded down; Raft.HandleElectionVote states that a node leads exactly then |
| Raft.Approvals | lib/raft.rb:96 | the approval count never exceeds the number of votes, equals it when every vote names the node, and is zero when none does |
| Raft.AppendLog | lib/raft.rb:132-134 | the log grows by exactly one entry, the content, at the end; the old log is a prefix; no other field changes |
| Raft.PropagateState | lib/raft.rb:126-130 | raises exactly when the node is not leading, sending nothing; a leader sends `:log_state` with the state to each neighbour, once, in neighbour order; the node itself is unchanged |
| Raft.ProposeStateToLeader | lib/raft.rb:117-124 | with no known leader the proposal is dropped: no message, no error; otherwise exactly one `:propose_state` with the same state goes to the leader; the node is unchanged |
| Raft.HandleProposeState | lib/raft.rb:58-68 | a leader appends the state to its log and sends it to every neighbour; a non-leader keeps its state and forwards or drops the proposal; never raises |
| Raft.RequestLeaderElection | lib/raft.rb:136-142 | raises exactly at a leader; anyone else becomes electing with an empty vote list, asks every neighbour for a vote, and keeps leader, log and inbox log |
| Raft.HandleTimeout | lib/raft.rb:74-82 | a leader or voter is left as it was with nothing sent; anyone else ends electing (not voting), with no leader and an empty vote list, and sends one election request per neighbour; never raises |
| Raft.HandleElectionRequest | lib/raft.rb:84-90 | the receiver becomes a voter and sends exactly one vote, back to the requester, naming the requester; leader, votes and log are unchanged |
| Raft.HandleElectionVote | lib/raft.rb:92-105 | raises exactly when no vote list exists; otherwise the vote is appended; below the neighbour count nothing else happens; at the neighbour count the node leads exactly when the approvals reach half the neighbours (integer division), and it announces `:set_leader` or `:no_leader` to every neighbour |
| Raft.HandleSetLeader | lib/raft.rb:107-110 | the node follows the sender; only status and leader change; nothing is sent |
| Raft.HandleNoLeader | lib/raft.rb:112-115 | the node follows nobody; only status and leader change; nothing is sent |
| RaftProperties.LoopOnlyAppends | lib/raft.rb:19-43 | over any sequence of messages taken by the inbox loop the node keeps its identity, the old log stays a prefix of the log, which grows by at most one entry per message, and the old inbox log stays a prefix of the inbox log |
| RaftProperties.LoopRecords | lib/raft.rb:19-21 | when the loop takes a whole sequence of messages without ending, the inbox log grows by exactly the messages that are not timeouts, heartbeats or stops, in the order taken |
| RaftProperties.NothingAfterStop | lib/raft.rb:40-41 | a `:stop` ends the loop: the loop has ended after it, and no message after it is ever taken |
| RaftProperties.StepAppends | lib/raft.rb:132-134 | every message keeps the node's identity and grows each log only at its end, the log by at most one entry |
| RaftProperties.OutboxDiscipline | lib/raft.rb:58-142 | every message a node sends is signed by itself and is never a timeout, heartbeat or stop; a node that sends an election request holds a vote list; a vote is only ever sent in answer to an election request, to its requester, and leaves the voter's votes alone |
| RaftProperties.LogAppendOnly | lib/raft.rb:58-72 | the log gains exactly the message content at its end for a `:log_state`, or for a proposal at a leader; in every other case it is unchanged |
| RaftProperties.FieldsEachMessageTouches | lib/raft.rb:74-115 | only timeouts, `:set_leader` and `:no_leader` change the leader; only timeouts and votes touch the votes; heartbeats, proposals, `:log_state` and stops never change the status; only a vote makes a node leader |
| RaftProperties.TimeoutIgnoredByLeaderAndVoter | lib/raft.rb:74-76 | a timeout at a leader or a voter changes nothing at all, not even the inbox log, and sends nothing |
| RaftProperties.ProposalAtNonLeaderNeverLogged | lib/raft.rb:64-67 | a non-leader never logs a proposal and never raises on one; with no leader it sends nothing |
| RaftProperties.FreshNode | lib/raft.rb:11-15 | a fresh node is consistent and has no vote list; any node without a vote list, fresh or not, ends its loop exactly on a stop and raises (on the nil `@votes`) exactly on a vote |
| RaftProperties.StepPreservesConsistent | lib/raft.rb:136-142 | a node that is electing or leading always has a vote list, and every step preserves this |
| RaftProperties.LoneNodeNeverLeads | lib/raft.rb:92-105 | a node with no neighbours that is not leading does not become leader on any message |
| RaftProperties.RequestMakesVoter | lib/raft.rb:84-90 | an election request makes the receiver a voter whose only message is a vote for the requester, with leader and log kept |
| RaftProperties.SetLeaderMakesFollower | lib/raft.rb:107-110 | `:set_leader` makes the receiver follow the sender, keeping its log and sending nothing |
| RaftProperties.LogStateAppends | lib/raft.rb:70-72 | `:log_state` appends its content to the log, keeps status and leader, and sends nothing |
| RaftProperties.VoteForSelf | lib/raft.rb:92-100 | votes naming the node are recorded one by one; the vote that brings the count to the neighbour count makes the node leader and announces `:set_leader` to every neighbour; earlier ones change nothing else |
| Messages.Broadcast | lib/raft.rb:129 | no contract of its own: `send_to_all_neighbors`, one envelope per neighbour in neighbour order, all with the same message; Messages.BroadcastReaches states what it reaches |
| Messages.BroadcastReaches | lib/raft.rb:141 | a broadcast carries the same signed message to every recipient, addresses a node exactly when it is a neighbour, and addresses no node twice when the neighbour list has no repeats |
| Helpers.AddNeighbour | spec/helpers.rb:10 | the neighbour is added once, at the end of the list; the old list is kept as a prefix; id and name are unchanged |
| Helpers.Others | spec/helpers.rb:8 | the neighbour list of node `i`: exactly the other ids of the cluster, ascending, `n - 1` of them |
| Helpers.GenerateCluster | spec/helpers.rb:5-15 | one node per name, in name order, node `i` with id `i`; node `i`'s neighbours are exactly the other nodes, in order |
| Helpers.GeneratedTopology | spec/helpers.rb:7-11 | in the cluster built from those neighbour lists no node neighbours itself, each has every other node as neighbour, `n - 1` of them, and the neighbour relation is symmetric |
| Cluster.Boot | lib/raft.rb:11-15 | a generated cluster of fresh nodes: following, no leader, no votes, empty logs, complete topology |
| Cluster.Deliver | lib/raft.rb:19-23 | the recipient's inbox loop takes one message: no other node changes, the topology is kept, a node whose loop has ended stays so and only the recipient can end; a node whose loop has ended, or an id outside the cluster, takes nothing and nothing is sent |
| Scenarios.TimeoutRound | lib/raft.rb:74-82 | a timed-out non-leader, non-voter becomes electing with an empty vote list and sends its election requests; no other node changes |
| Scenarios.RequestRound | lib/raft.rb:84-90 | delivering a candidate's requests makes every other node a voter, keeping its leader and log, and yields one vote per other node, from each of its neighbours in neighbour order, all addressed to the candidate and naming it |
| Scenarios.VotesRound | lib/raft.rb:92-100 | delivering votes that all name the candidate grows its vote list by one each; before the last one nothing is sent; the last makes it leader and it announces `:set_leader` to every neighbour |
| Scenarios.SetLeaderRound | lib/raft.rb:107-110 | delivering a `:set_leader` broadcast makes every other node follow the sender, with logs kept and nothing sent |
| Scenarios.LogStateRound | lib/raft.rb:70-72 | delivering a `:log_state` broadcast appends the state to every other node's log, keeping statuses and leaders, with nothing sent |
| Scenarios.LeaderProposeRound | lib/raft.rb:58-63 | a leader given a proposal logs it, records it in its inbox log and broadcasts `:log_state` |
| Scenarios.FollowerForwardRound | lib/raft.rb:64-67 | a non-leader that knows the leader forwards the proposal once to it and keeps its own log |
| Scenarios.ElectionElectsSingleLeader | spec/node_spec.rb:12-21 | in a generated cluster of two or more nodes, after one node (not leading, not voting) times out and four rounds of messages are delivered, that node is the only leader, every other node follows it, no log changed, and nothing is left to deliver |
| Scenarios.ProposalReachesEveryLog | spec/node_spec.rb:28-41 | a proposal given to the leader of a generated cluster ends, after two rounds, at the end of every node's log, with no status or leader changed and nothing left to deliver |
| Scenarios.ForwardedProposalReachesEveryLog | spec/node_spec.rb:45-62 | a proposal given to a follower that knows the leader reaches the leader's inbox log and, after three rounds, the end of every node's log |
| Network.ApplyKeepsInv | lib/raft.rb:92-93 | under any action no node halts, electing or leading nodes keep a vote list, and every in-flight request comes from, and every vote goes to, a node with a vote list |
| Network.NoHandlerEverRaises | lib/raft.rb:92-93 | in every run of a generated cluster no node's inbox loop has ended, and whatever in-flight message a node takes next, its handler does not raise; no action sends a stop, so only a raise could have ended a loop |
| SplitVote.TwoTimeoutsCanElectTwoLeaders | lib/raft.rb:84-105 | in a fresh three-node cluster, if two nodes time out before any vote arrives, both can end up leading at the same time: every node votes for every requester |

## Left out

- `receive` (lib/raft.rb:153-165) is replaced by the message given to `Step`:
  the busy-wait, `Timeout.timeout` and the random timeout length become
  "the next message or a timeout". In `Network` the order of the inbox is
  free: any in-flight message may be taken next.
- The two threads, `sleep` and `join` (lib/raft.rb:17-54, 148-151) are not
  modelled as such. The heartbeat loop is the `Network.Beat` action, which
  sends `:heartbeat` to every neighbour exactly when the node is leading.
- `puts` and `warn` output is not modelled.
- `Node#stop` (called by `start_cluster`, spec/helpers.rb:27; its
  definition is not in the source) is not an action of `Network`: no `:stop`
  is ever in flight there, so `Network.NoHandlerEverRaises` says nothing
  about stopped nodes. The stop itself is modelled in `Raft.Step` and
  `RaftProperties.NothingAfterStop`.
- `become_leader` (lib/raft.rb:144-146) is empty and never called.
- `lib/node.rb` is not part of this model. It does not define
  `send_to_all_neighbors`, `send`, `add_neighbor` or the node's logs, so:
  - `send_to_all_neighbors` is taken to send one message per neighbour, in
    neighbour order;
  - `add_neighbor` is taken to append to the neighbour list;
  - `log` and `inbox_log` are taken to be arrays.
- `start_cluster` (spec/helpers.rb:17-32) and the demo in `Rakefile.rb` only
  orchestrate threads.
- Scenarios.ElectionElectsSingleLeader: proved for delivery in synchronous
  rounds with exactly one timeout. When several nodes time out before the
  votes arrive, the code can produce two leaders at once, as
  `SplitVote.TwoTimeoutsCanElectTwoLeaders` shows for one run.
- Network.NoHandlerEverRaises: states only that no handler raises. It makes
  no claim of a single leader under arbitrary interleavings, because the
  code does not guarantee one.
