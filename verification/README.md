# Orbit: verified models of consumer groups, batch publishing and key-value codecs

A Dafny model of three parts of the repository, with proofs of what they promise.

- **Partitioned consumer groups** (`Names`, `Config`, `Allocation`, `Ownership`, `Transform`, `Server`,
  `Instance`, `Team`, `Group`, `Convergence`, `Membership`). Partitions are handed to members, a subject transform puts
  a partition number in front of each message, each elastic member's instance runs a control loop that joins,
  leaves and corrects itself, and administrators change the membership at any time. Main results: one key is
  never delivered to two members at a time, with any number of instances, in any interleaving of single calls and
  with any call failing (`Group.OneKeyOneMember`); a stable group converges to serving every partition once
  (`Convergence.Converges`, `Convergence.ConvergedServesAll`), and exactly when it can
  (`Convergence.ConvergesExactly`); the stored config is always valid and conditional
  writers lose nothing (`Membership.StoredValid`, `Membership.NothingLost`).
- **Batch publishing** (`FastPublisher`, `FastPublish`, `BatchPublish`). A windowed sender with its ack handler,
  over a link that loses packets and a server that persists in sequence; and two independent clients of the
  atomic batch protocol. Main results: what is acknowledged is persisted (`FastPublish.AckedIsPersisted`), a
  stalled publisher that need not wait is woken (`FastPublish.NoLostWakeUp`), the window is never
  exceeded (`FastPublish.WindowHolds`), without losses exactly what was handed over is persisted, in order
  (`FastPublish.PersistsHanded`), every item of an atomic batch carries the headers of the protocol
  (`BatchPublish.IncrementalSends`, `BatchPublish.AllSends`), and exactly when the two batch clients do the same
  (`BatchPublish.AgreeExactly`).
- **Key-value codecs** (`Base64`, `KeyCodecs`, `Chains`, `CodecKV`). Main results: round trips with their exact
  domains, filters that match exactly after encoding, and a wrapped bucket that refines a plain one
  (`CodecKV.BehavesLikePlain`, `CodecKV.Base64WatchesAgree`).

`Tokens`, `Arithmetic` and `Decimal` hold what these share: splitting and joining, wildcard matching, numerals.

## How it is modelled

Objects that the program updates in place are classes (`ElasticInstance`, `JetStream`, `Publisher`,
`BatchPublisher`, `KeyValue`, `CodecKeyValue`); loops are methods with invariants. Each is proved equal to a
function on values, and runs of several participants are sequences of labelled steps of those functions, so the
theorems about runs are theorems about the loops and classes. `Group` takes every call to the server as a step, for
any number of instances; `Team` takes whole turns of one instance per member, and is proved to be a special case.
What comes from outside is a parameter: the outcome of a call (`JoinIO`, `Reply`, `Conn`, `Answer`), the order of
events, the order in which a map is walked.

The model makes these assumptions about the server. Where a comment of the code states one it is cited; the rest
are assumptions about how the server behaves:

- a work-queue stream refuses a consumer whose filters take a subject of another consumer
  (`pcgroups/elastic_stream_consumer_group.go:731-735`); the model also assumes that it refuses one two of whose own
  filters take a common subject (`Server.Admissible`);
- a subject transform replaces `{{Wildcard(i)}}` and `$i` by the i-th `*` token of the source filter,
  `{{Partition(n,...)}}` by a number that is a function of n and the chosen tokens, a final `>` by the rest, and
  leaves every other word as it is, in braces or not (`Transform.Apply`); the code itself only writes these two
  forms, the rest is assumed, and the hash is arbitrary;
- a fast batch is persisted in sequence and ends at a gap, and the server acknowledges a batch it has started, as
  far as it is persisted (`jetstreamext/fastpublish.go:83-92`; `FastPublish.ServeStep`, `FastPublish.Enabled`);
- a bucket keeps the last entry of a key, deletions included, and revisions count up (`CodecKV.Step`).

## Where code and documentation part

The model follows the code in each case.

- A partitioning filter may contain a word such as `$1`, which the server reads as a wildcard: the subject is
  rewritten (`Transform.RewritingFilter`; exact condition in `Transform.TransformExactly`).
- A group with mappings and more than one partitioning filter is valid but can never be served, because each
  member's filters repeat (`Convergence.ServableExactly`).
- The timer is meant to correct an instance that does not consume, but it does not correct one whose consumer was
  made and whose `Consume` failed (`Convergence.StuckAtStart`, `Convergence.StuckForever`; exact condition in
  `Convergence.ConvergesExactly`).
- Two first creations can both write, and the mapping writers put without a revision: they can undo a change, replace
  the fixed part of a group that was created again, and bring back a removed one (`Membership.RacingCreations`,
  `Membership.BlindPutOverwrites`, `Membership.StaleWriteReplaces`, `Membership.StaleWriteRestores`; exact conditions
  in `Membership.FixedChangesExactly`, `Membership.BlindWriteExactly`).
- A terminal response wakes no stalled publisher, which then waits for its deadline unless it had room already
  (`FastPublish.StalledForGood`, `FastPublish.LeavesStallExactly`).
- After a failed first subscription AddMsg goes on sending although the batch can no longer start
  (`FastPublish.GoesOnSending`, `FastPublish.StartsExactly`).
- A commit that cannot be published leaves its channel behind; a later response can then find it full and hold the
  ack handler and its lock for good (`FastPublish.Deadlock`; exact conditions in `FastPublish.HandlerHeldExactly` and
  `FastPublish.ReleasedExactly`).
- A stall that is given up closes the batch without ending the subscription of the acknowledgements, unlike every
  other failed wait (`FastPublish.StallLeavesSubscription`, `FastPublish.ClosedUnsubscribes`).
- A refusal of the first message is not reported to the call that waits: AddMsg waits for its deadline
  (`FastPublish.RefusedFirst`, `FastPublish.LeavesFirstWaitExactly`).
- The documented use of `PublishMsgBatch` builds messages without headers, which the code cannot set headers on
  (`BatchPublish.NilHeaderPanics`); `AddMsg` sends a commit header that a message brings along, and reports malformed
  replies that the other client ignores (`BatchPublish.AgreeExactly`).
- Path keys whose first element is `_root_`, or that hold a dot, do not come back (`KeyCodecs.PathRoundTripExactly`),
  and the root key is not taken by `/>` once encoded (`Chains.RootNotTaken`; exactly when in
  `Chains.PathMatchingExactly`).

## Model

| member | source | states |
|---|---|---|
| Config.ValidateFilter | pcgroups/elastic_stream_consumer_group.go:839-876 | Accepts exactly the well-formed partitioning filters (a wildcard, and distinct wildcard numbers that name `*`s of the filter), and each error names a defect the filter has. |
| Config.ValidateMembership | pcgroups/elastic_stream_consumer_group.go:878-920 | With mappings: accepts exactly when there are no members, at most max mappings with distinct names, and every partition below max occurs exactly once; each error names a real defect. |
| Config.ValidateConfig | pcgroups/elastic_stream_consumer_group.go:830-923 | Accepts exactly the valid configs and never reports an error without its defect. |
| Config.ValidateStaticConfig | pcgroups/static_stream_consumer_group.go:479-533 | Accepts exactly the memberships that the elastic validator accepts. |
| Config.ValidExactly | pcgroups/elastic_stream_consumer_group.go:830-923 | Valid is the same as free of every defect that the validator can report. |
| Config.WildcardsExactly | pcgroups/elastic_stream_consumer_group.go:844-855 | Wildcards are the tokens `*`, and a filter ends open exactly when it is ">" or ends in ".>". |
| Config.Pigeonhole | pcgroups/elastic_stream_consumer_group.go:910-918 | Why counting is enough: distinct numbers below n are n many exactly when they are all of them. |
| Config.DistinctInRange | pcgroups/elastic_stream_consumer_group.go:857-859 | The count test on wildcards never rejects anything that the range and uniqueness tests would let through. |
| Names.Deduplicate | pcgroups/elastic_stream_consumer_group.go:982-994 | First occurrences in order, each once, with the same set of names. |
| Names.FirstsExactly | pcgroups/elastic_stream_consumer_group.go:982-994 | What is kept stands in the order in which it first occurs. |
| Names.SortedUnique | pcgroups/stream_consumer_group.go:67-68 | Two sorted duplicate-free lists of the same names are the same list. |
| Names.LessExactly | pcgroups/stream_consumer_group.go:68 | The order of names is byte order: the first difference decides, and a proper prefix comes first. |
| Decimal.NumeralExactly | pcgroups/stream_consumer_group.go:89 | Numbers are printed in decimal, most significant digit first and without leading zeros. |
| Allocation.OwnerIndex | pcgroups/stream_consumer_group.go:87-96 | The roster position computed for a partition is always a position of the roster. |
| Allocation.OwnerBlock | pcgroups/stream_consumer_group.go:85-96 | The arithmetic of the loop gives member k exactly the k-th run of max/n partitions and the k-th left-over one. |
| Allocation.CollectedAll | pcgroups/stream_consumer_group.go:82-99 | What the loop over all partitions collects for member k is the closed form, in this order. |
| Allocation.BlockOwner | pcgroups/stream_consumer_group.go:85-96 | A partition is in a member's block exactly when that member is its computed owner, so blocks are disjoint and cover everything. |
| Allocation.BlockInRange | pcgroups/stream_consumer_group.go:85-96 | A block holds partitions below max only, in increasing order. |
| Allocation.Balanced | pcgroups/stream_consumer_group.go:74-99 | Blocks differ in size by at most one, the larger ones first, and the sizes add up to max. |
| Allocation.RosterOfSet | pcgroups/stream_consumer_group.go:67-72 | The roster depends on the set of names only, not on order or repetition. |
| Allocation.RosterExactly | pcgroups/stream_consumer_group.go:67-72 | The roster holds exactly the first max names in byte order, each at the place that is the number of names before it. |
| Allocation.BalancedExactly | pcgroups/stream_consumer_group.go:65-99 | The k-th name in byte order is given exactly the k-th block, and names beyond the first max nothing. |
| Allocation.EveryoneServed | pcgroups/stream_consumer_group.go:65-99 | Up to max different names everybody has max/n or max/n + 1 partitions, at least one; beyond max exactly the first max names have one each. |
| Allocation.MappedExactly | pcgroups/stream_consumer_group.go:101-112 | A member with a mapping has exactly its partitions, in its order; anybody else none. |
| Allocation.BalancedFilters | pcgroups/stream_consumer_group.go:76-99 | The loop returns one filter for each partition of the member's block and nothing for anybody else. |
| Allocation.MappedFilters | pcgroups/stream_consumer_group.go:101-112 | The nested loop returns "p.>" for each mapped partition, in order. |
| Allocation.GeneratePartitionFilters | pcgroups/stream_consumer_group.go:65-115 | Balanced, mapped and empty memberships all give exactly the filters of the member's partitions, which Allocation.BalancedExactly and Allocation.MappedExactly name. |
| Allocation.ElasticGetPartitionFilters | pcgroups/elastic_stream_consumer_group.go:668-679 | One batch of filters per partitioning filter, or one batch of "p.>" when there is none. |
| Allocation.FiltersOfSet | pcgroups/elastic_stream_consumer_group.go:421-424 | AddMembers may store names in any order: all members still get the same filters. |
| Ownership.Holder | pcgroups/stream_consumer_group.go:65-115 | Each partition of a valid config belongs to exactly one member, who is in the membership. |
| Ownership.PartitionsDistinct | pcgroups/stream_consumer_group.go:65-115 | No member is given a partition twice. |
| Ownership.ConsumerFilterShape | pcgroups/elastic_stream_consumer_group.go:668-679 | Every filter of a consumer is one of its member's partitions followed by a partitioning filter or ">". |
| Ownership.PartitionFilterMatches | pcgroups/stream_consumer_group.go:89 | A filter with a partition in front matches exactly the subjects with that first token whose remainder the filter matches. |
| Ownership.NoSharedSubject | pcgroups/elastic_stream_consumer_group.go:668-679 | Two members' filter sets never match a common subject, whatever the subject. |
| Ownership.OneOwner | pcgroups/elastic_stream_consumer_group.go:668-679 | A sourced subject behind partition p is matched by the filters of p's owner and of nobody else. |
| Transform.NumberWildcards | pcgroups/elastic_stream_consumer_group.go:932-941 | The in-place loop numbers the `*`s from 1 and leaves all other tokens. |
| Transform.GetPartitioningTransformDest | pcgroups/elastic_stream_consumer_group.go:925-950 | Builds the partition call and the numbered destination for every filter. |
| Transform.DestinationExactly | pcgroups/elastic_stream_consumer_group.go:925-950 | The destination token by token: `{{Partition(max,w1,...)}}`, then the filter with its j-th `*` as `{{Wildcard(j)}}` and all else as it is. |
| Transform.KeyTokens | pcgroups/elastic_stream_consumer_group.go:945-949 | Token i of a key is the subject's token under star number w_i of the filter, whatever the order of the numbers. |
| Transform.PartitionCallParses | pcgroups/elastic_stream_consumer_group.go:945-949 | The built partition call reads back as the same count and wildcard numbers. |
| Transform.ExpandRestores | pcgroups/elastic_stream_consumer_group.go:932-941 | The numbered placeholders put every captured token, and the tail, back in place. |
| Transform.TransformPrefixes | pcgroups/elastic_stream_consumer_group.go:925-950 | On a plain filter the transform yields partition + "." + the unchanged subject, the partition depending on the chosen tokens only. |
| Transform.TransformExactly | pcgroups/elastic_stream_consumer_group.go:925-950 | This holds on all subjects of a filter exactly when no word of the filter is read back as a transform function. |
| Transform.PlainWhen | pcgroups/elastic_stream_consumer_group.go:839-876 | In particular when no word begins with "{{" or "$". |
| Transform.RewritingFilter | pcgroups/elastic_stream_consumer_group.go:925-950 | A valid filter for which it fails: "*.$1" turns "a.$1" into "p.a.a". |
| Transform.MessageSubject | pcgroups/stream_consumer_group.go:132-142 | Everything behind the first dot, or the subject itself when it has none. |
| Transform.StripUndoes | pcgroups/stream_consumer_group.go:132-142 | Stripping undoes the prefixing. |
| Transform.StripExactly | pcgroups/stream_consumer_group.go:132-142 | A subject without a dot stays; of any other exactly the first token goes. |
| Transform.SourcesExactly | pcgroups/elastic_stream_consumer_group.go:298-319 | The source filters take exactly the subjects of the group, all of them when it has no partitioning filter. |
| Transform.KeyGoesToOneMember | pcgroups/elastic_stream_consumer_group.go:300-318 | From publisher to handler: the subject comes back unchanged and exactly the owner of its key's partition is delivered it. |
| Server.CollideExactly | pcgroups/elastic_stream_consumer_group.go:731-735 | The token-wise test finds exactly the filter pairs that some subject matches both of. |
| Server.OverlapExactly | pcgroups/elastic_stream_consumer_group.go:731-735 | Two consumers overlap exactly when some subject would be delivered to both. |
| Instance.JoinSound | pcgroups/elastic_stream_consumer_group.go:707-743 | Joining sets the handle only together with the filters of the current config, and starts at most one context. |
| Instance.StepSound | pcgroups/elastic_stream_consumer_group.go:162-227 | Every event keeps: handle filters are those of the config, a running context has a handle, started minus stopped is 0 or 1, the config stays valid and its fixed part unchanged, finishing stops all. |
| Instance.RunSound | pcgroups/elastic_stream_consumer_group.go:162-227 | The same at every loop head of every run. |
| Instance.RunFinishes | pcgroups/elastic_stream_consumer_group.go:162-227 | A run reports the outcome of the first ending event and nothing else, exactly once, and leaves nothing running. |
| Instance.FirstOutcomeIs | pcgroups/elastic_stream_consumer_group.go:162-227 | That outcome belongs to the first event that ends a run, and there is none exactly when no event does. |
| Instance.CallMidway | pcgroups/elastic_stream_consumer_group.go:707-828 | Every single call to the server keeps the lifecycle invariant and the consumers apart, and touches the member's own consumer only. |
| Instance.TurnByCalls | pcgroups/elastic_stream_consumer_group.go:162-227 | With nobody in between, the calls of a turn add up to the specified step. |
| Instance.ElasticInstance.constructor | pcgroups/elastic_stream_consumer_group.go:87-147 | The first join happens exactly for a name in the membership. |
| Instance.ElasticInstance.StopConsuming | pcgroups/elastic_stream_consumer_group.go:778-787 | Stops the context if there is one and drops the handle; a second call changes nothing. |
| Instance.ElasticInstance.TryCreateConsumer | pcgroups/elastic_stream_consumer_group.go:746-764 | Create; on "exists" delete and create again; only a confirmed create succeeds. |
| Instance.ElasticInstance.JoinMemberConsumer | pcgroups/elastic_stream_consumer_group.go:707-743 | The new instance state and consumers of a join, in all outcomes of its calls. |
| Instance.ElasticInstance.ProcessMembershipChange | pcgroups/elastic_stream_consumer_group.go:790-828 | Stop, delete only when pinned, join again. |
| Instance.ElasticInstance.Handle | pcgroups/elastic_stream_consumer_group.go:162-227 | One turn of the select does the specified step and keeps the lifecycle invariant. |
| Instance.ElasticInstance.InstanceRoutine | pcgroups/elastic_stream_consumer_group.go:162-227 | The loop does the specified run and ends at the first ending event. |
| Group.StepKeepsSound | pcgroups/elastic_stream_consumer_group.go:162-227 | With any number of instances of every member, each call a step of its own and consumers expiring at any time, every step keeps consumers apart and every instance within its lifecycle. |
| Group.StepKeepsDerived | pcgroups/elastic_stream_consumer_group.go:707-743 | Every consumer on the stream always has the filters that some config of the group gave its member. |
| Group.PartitionServedOnce | pcgroups/stream_consumer_group.go:65-115 | At no moment of any run are two subjects of one partition delivered to two members, even while consumers of several configs exist. |
| Group.OneKeyOneMember | pcgroups/README.md:26 | The promise: messages of one key, through whichever filters they were sourced, are never delivered to two members at a time, however many instances of a member are deployed. |
| Group.TeamRun | pcgroups/elastic_stream_consumer_group.go:162-227 | Every run in which turns are whole and members have one instance is a run of the group, so all of this holds there too. |
| Group.StoredNeverEndsExactly | pcgroups/elastic_stream_consumer_group.go:188-202 | In every run without a removal no stored config takes the watcher's invalid-config or bad-change branch, exactly when no write that is already pending would bring back another fixed part. |
| Convergence.ServableExactly | pcgroups/elastic_stream_consumer_group.go:668-679 | The stream accepts all members' filters exactly when there is at most one partitioning filter, or members are balanced and the filters are disjoint; with mappings a second filter repeats "p.>" and is refused. |
| Convergence.ChangeTakesEffect | pcgroups/elastic_stream_consumer_group.go:790-828 | Where the calls work, a change leaves the member drawing on a consumer with its new filters, or without one; a member that leaves takes its consumer away exactly if its instance was pinned, and touches no other. |
| Convergence.UnpinnedLeavesExactly | pcgroups/elastic_stream_consumer_group.go:814-828 | Whatever comes of its calls, an instance that is not pinned leaves the consumer in place exactly when it wants none or the same, cannot find out, or cannot delete it. |
| Convergence.QuietStep | pcgroups/elastic_stream_consumer_group.go:198-225 | While the config is stable no step makes a consumer stale or stops a running member. |
| Convergence.StaleExpires | pcgroups/elastic_stream_consumer_group.go:790-828 | A stale consumer is never in use and its expiry removes it for good. |
| Convergence.OwnStaleReplaced | pcgroups/elastic_stream_consumer_group.go:746-764 | A member that tries again with working calls replaces its own stale consumer, or at least removes it. |
| Convergence.LackingJoins | pcgroups/elastic_stream_consumer_group.go:218-225 | With other members' stale consumers gone, one working timer tick starts a member that is not running. |
| Convergence.AlwaysProgress | pcgroups/elastic_stream_consumer_group.go:198-225 | While anything is missing, a step that brings the group closer is possible. |
| Convergence.Settles | pcgroups/elastic_stream_consumer_group.go:198-213 | However instances' configs differ, they agree once the stored config has reached each. |
| Convergence.QuietRunShrinks | pcgroups/elastic_stream_consumer_group.go:198-225 | Over any quiet run the missing parts only shrink, and the number of steps that change them is bounded by the initial distance. |
| Convergence.Converges | pcgroups/elastic_stream_consumer_group.go:218-225 | Fairness is enough: after every stale consumer has expired or been replaced by its own member, and every member still not running has tried once, in any order and among any other quiet steps, nothing is missing. |
| Convergence.ConvergesExactly | pcgroups/elastic_stream_consumer_group.go:198-225 | A servable group whose instances have the stored config can converge, however its calls go, exactly when no instance holds a consumer that it does not draw on. |
| Convergence.StuckForever | pcgroups/elastic_stream_consumer_group.go:767-776 | Such an instance lacks its consumer in every run of expiries, ticks and same-config updates with any outcomes. |
| Convergence.StuckAtStart | pcgroups/elastic_stream_consumer_group.go:767-776 | It takes one Consume that fails after its consumer was made to get there. |
| Convergence.ConvergedServesAll | pcgroups/elastic_stream_consumer_group.go:668-679 | Then every sourced subject of every partition is taken by one consumer, its owner's, which is being drawn on. |
| Convergence.FreshGroupServes | pcgroups/elastic_stream_consumer_group.go:87-147 | A new group whose members all start, in any order and with working calls, is settled and serves everything at once. |
| Membership.AddMembers | pcgroups/elastic_stream_consumer_group.go:399-437 | Keeps everything but the members, which become the duplicate-free union without the empty name; refuses mapped groups. |
| Membership.DeleteMembers | pcgroups/elastic_stream_consumer_group.go:454-488 | Drops exactly the named members, in order; refuses mapped groups. |
| Membership.SetMemberMappings | pcgroups/elastic_stream_consumer_group.go:505-530 | Replaces members by the mappings given, exactly when there are any and the result is valid. |
| Membership.DeleteMemberMappings | pcgroups/elastic_stream_consumer_group.go:547-563 | Keeps everything but the mappings. |
| Membership.WithoutExactly | pcgroups/elastic_stream_consumer_group.go:466-472 | Dropping looks at one member after the other and keeps their order. |
| Membership.WithoutElements | pcgroups/elastic_stream_consumer_group.go:454-488 | What dropping names means for the set of members. |
| Membership.ProposedValid | pcgroups/elastic_stream_consumer_group.go:399-563 | Whatever a writer computes from a valid config is valid and has the same fixed part. |
| Membership.ReadExactly | pcgroups/elastic_stream_consumer_group.go:239-547 | A call gets past its read exactly when what it creates is valid or the group is there, and goes on from what is stored then. |
| Membership.WriteExactly | pcgroups/elastic_stream_consumer_group.go:266-563 | What each writer stores, and when: a creation what it was given, a mapping call the mappings in place of the members if valid, and additions and removals only at the revision read; otherwise nothing stored changes. |
| Membership.StoredValid | pcgroups/elastic_stream_consumer_group.go:239-563 | In every interleaving of all writers, creation and removal included, the stored config passes the validator. |
| Membership.FixedChangesExactly | pcgroups/elastic_stream_consumer_group.go:266-296 | For every consistent state: the stored fixed part changes at exactly three kinds of step, a removal, the write of a creation that had found nothing, and the Put of a mapping writer that read something else than is stored. |
| Membership.FixedKeptExactly | pcgroups/elastic_stream_consumer_group.go:284-296 | The fixed part of an existing group stays in every run without a removal, whatever is called, exactly when no such write is already pending. |
| Membership.NothingLost | pcgroups/elastic_stream_consumer_group.go:399-488 | With AddMembers and DeleteMembers from any number of processes, the final members are the committed calls folded in revision order. |
| Membership.RacingCreations | pcgroups/elastic_stream_consumer_group.go:266-282 | Two creations that both find nothing both write, and the second replaces the fixed part. |
| Membership.BlindWriteExactly | pcgroups/elastic_stream_consumer_group.go:505-563 | A write without a revision leaves what it is meant to leave exactly when the group is there with the fixed part that was read and, for a clearing, the members that were read; it can fail to only if the revision is not the one read. |
| Membership.StaleWriteReplaces | pcgroups/elastic_stream_consumer_group.go:547-563 | A run in which a clearing that read before a removal and a new creation brings back the old fixed part. |
| Membership.StaleWriteRestores | pcgroups/elastic_stream_consumer_group.go:547-563 | A run in which it brings back a group that is gone. |
| Membership.BlindPutOverwrites | pcgroups/elastic_stream_consumer_group.go:536-563 | A run in which it fails: clearing the mappings undoes a committed AddMembers. |
| FastPublisher.Publisher.AddMsg | jetstreamext/fastpublish.go:278-375 | State, operation and result of the locked part in every outcome of the connection, and when it goes on to stall. |
| FastPublisher.Publisher.Commit | jetstreamext/fastpublish.go:458-481 | State, operation and result of the locked part of a commit: a commit of the message, or of an end of batch. |
| FastPublisher.Publisher.Abandon | jetstreamext/fastpublish.go:345-382 | What a wait that did not succeed leaves of the publisher: closed, and unsubscribed except after a stall. |
| FastPublisher.Publisher.AckMsgHandler | jetstreamext/fastpublish.go:557-638 | What each kind of response does to the publisher; one that finds the commit channel full holds the handler with its lock. |
| FastPublisher.Publisher.TakeResponse | jetstreamext/fastpublish.go:488-495 | Taking a response frees the channel, or lets a held handler put its own there and go on. |
| FastPublish.StepAccounted | jetstreamext/fastpublish.go:278-391 | Every step keeps the account: numbers 1..sequence named once, pings reuse published numbers, persisted messages sit at their own number, acknowledgements cover persisted ones. |
| FastPublish.RunAccounted | jetstreamext/fastpublish.go:278-391 | A number never names two messages and nothing persisted is taken back, over every run. |
| FastPublish.AckedIsPersisted | jetstreamext/fastpublish.go:268-276 | In every state of every run, with anything lost or failing, all messages up to the acknowledged sequence, and up to every returned AckSequence, are persisted. |
| FastPublish.PersistsHanded | jetstreamext/fastpublish.go:278-480 | In every run in which what is sent arrives and no commit comes first, the server persists a prefix of the added messages in order and the committed one, and all of them, and nothing else, once it has caught up. |
| FastPublish.CommitPersists | jetstreamext/fastpublish.go:458-480 | Of a commit in order the message is persisted, of an end of batch only what was added before; either ends the batch. |
| FastPublish.ReturnsOwnNumber | jetstreamext/fastpublish.go:268-391 | Whenever AddMsg returns after a wait, in any run, it returns the number of its own message, and the first acknowledgement for the first message or the latest for the others. |
| FastPublish.ReturnsAtOnce | jetstreamext/fastpublish.go:368-391 | Without a wait it does the same at once exactly if the message was sent, and otherwise returns no acknowledgement. |
| FastPublish.PingsReuse | jetstreamext/fastpublish.go:203-214 | A ping carries a number that was published. |
| FastPublish.NoLostWakeUp | jetstreamext/fastpublish.go:221-246 | In every interleaving, a stalled publisher that need not wait has a token to take. |
| FastPublish.StallEndsAfterCheck | jetstreamext/fastpublish.go:227-236 | A stall ends well only by a look under the lock that found room. |
| FastPublish.StartsExactly | jetstreamext/fastpublish.go:278-326 | After the first AddMsg, some continuation persists anything exactly when that message was subscribed and published. |
| FastPublish.GoesOnSending | jetstreamext/fastpublish.go:299-303 | After a failed subscription the batch is still open and the next message is sent. |
| FastPublish.CommitNeverStarts | jetstreamext/fastpublish.go:441-480 | A commit that comes first starts nothing: nothing is persisted in any continuation. |
| FastPublish.NeverStarts | jetstreamext/fastpublish.go:299-313 | Once the first number is used up without a stall channel, no run persists or acknowledges anything. |
| FastPublish.LeavesStallExactly | jetstreamext/fastpublish.go:221-246 | Once a terminal response has been handled, a stalled publisher leaves the stall, other than by its deadline or a failing ping, exactly when there was room already. |
| FastPublish.StalledForGood | jetstreamext/fastpublish.go:616-636 | A run to a publisher that is stalled when the batch ends and has no room. |
| FastPublish.LeavesFirstWaitExactly | jetstreamext/fastpublish.go:328-366 | After a terminal response the first message is waited for until the deadline, exactly when no acknowledgement had come before. |
| FastPublish.RefusedFirst | jetstreamext/fastpublish.go:328-366 | A run to a first wait that the server's refusal does not end. |
| FastPublish.HandlerHeldExactly | jetstreamext/fastpublish.go:616-636 | Between calls: some continuation in which every commit is sent holds the handler with its lock exactly when the batch is subscribed and either open with the channel of a failed commit, or has a response in the channel. |
| FastPublish.NeverHeld | jetstreamext/fastpublish.go:616-636 | On a batch on which every commit is sent that never happens. |
| FastPublish.RunAnswerKept | jetstreamext/fastpublish.go:464-468 | What HandlerHeldExactly and ReleasedExactly ask of a session holds in every run from one in which it holds, a new one among them. |
| FastPublish.ReleasedExactly | jetstreamext/fastpublish.go:492-533 | A held handler can be released exactly while the commit waits for its response; otherwise the two wait for each other in every run. |
| FastPublish.ReleasedEnds | jetstreamext/fastpublish.go:616-636 | A released handler ends the subscription for good and leaves a response that nobody takes, in every continuation. |
| FastPublish.Deadlock | jetstreamext/fastpublish.go:464-533 | A run to that deadlock: a failed commit, a second one that is sent, two responses and a deadline. |
| FastPublish.RoomBound | jetstreamext/fastpublish.go:393-396 | When the check finds room there are fewer unacknowledged messages than the window allows. |
| FastPublish.RoomExactly | jetstreamext/fastpublish.go:393-396 | waitForAck holds exactly when the numbers given out and not acknowledged are at least the flow times the acknowledgements that may be outstanding. |
| FastPublish.WindowHolds | jetstreamext/fastpublish.go:372-396 | If acknowledgements never go back, unacknowledged messages, commit included, never exceed the window of the last passed check (or two). |
| FastPublish.FollowsServer | jetstreamext/fastpublish.go:585-589 | Flow and acknowledged sequence are always those of the last acknowledgement that arrived, whatever else happens. |
| FastPublish.NothingAfterClose | jetstreamext/fastpublish.go:281-284 | Once closed nothing is numbered or published, unless a commit call had seen the batch open. |
| FastPublish.ClosedUnsubscribes | jetstreamext/fastpublish.go:315-533 | In every run in which commits are sent and no stall is given up, a closed batch has no subscription between calls. |
| FastPublish.StallLeavesSubscription | jetstreamext/fastpublish.go:372-382 | A stall that is given up leaves it, and no later call of the application ends it. |
| BatchPublish.BatchPublisher.AddMsg | jetstreamext/publishbatch.go:187-260 | Options, sequence, headers, publish-or-request choice and error of one message; what is sent is pinned by BatchPublish.IncrementalSends. |
| BatchPublish.BatchPublisher.CommitMsg | jetstreamext/publishbatch.go:268-342 | The commit message, pinned by BatchPublish.IncrementalSends, its result, and when the batch is closed by it. |
| BatchPublish.BatchPublisher.Discard | jetstreamext/publishbatch.go:345-355 | Sends nothing and closes; fails when closed already. |
| BatchPublish.PublishMsgBatch | jetstreamext/publishbatch.go:374-474 | The one loop over all messages; what it sends and returns is pinned by BatchPublish.AllSends and BatchPublish.AllCommitsExactly. |
| BatchPublish.SetOptions | jetstreamext/publishbatch.go:199-221 | Options are gathered in order, later ones override, and set as headers; an expectation for no subject is an error. |
| BatchPublish.OptionsKeepProtocol | jetstreamext/publishbatch.go:208-221 | No option can forge or hide a header of the protocol. |
| BatchPublish.OptionsSet | jetstreamext/publishbatch.go:199-221 | Which header each option sets, to what, and over which earlier option; no options leave the header alone. |
| BatchPublish.IncrementalSends | jetstreamext/publishbatch.go:223-320 | Whatever the messages and answers: item k of what is sent is message k with Nats-Batch-Id the batch id and Nats-Batch-Sequence k, Nats-Batch-Commit "1" on the committed one, all other headers its own, and a request exactly when it commits or flow control asks. |
| BatchPublish.AllSends | jetstreamext/publishbatch.go:404-451 | The same of PublishMsgBatch, with commit headers of the application removed. |
| BatchPublish.ReadCommitExactly | jetstreamext/publishbatch.go:322-341 | A commit succeeds exactly on an acknowledgement with a stream, this batch id and this number of messages; all other answers are told apart. |
| BatchPublish.CommitsExactly | jetstreamext/publishbatch.go:227-341 | A batch is committed exactly when no message before the last failed and the last was acknowledged for all, which is what is returned. |
| BatchPublish.AllCommitsExactly | jetstreamext/publishbatch.go:404-474 | For PublishMsgBatch: exactly when all headers are there, only malformed replies are ignored, and the same acknowledgement came. |
| BatchPublish.CommitEnds | jetstreamext/publishbatch.go:320-326 | After a commit nothing more is sent exactly when the commit could be sent. |
| BatchPublish.AgreeExactly | jetstreamext/publishbatch.go:223-474 | For all messages and all answers, both clients send the same trace and return the same exactly when they meet no message without header, no commit header before the last message and no malformed reply that is waited for, before a failure ends the batch. |
| BatchPublish.OrdinaryAgree | jetstreamext/publishbatch.go:404-405 | With an accepting server only the messages decide: headers present, and no commit header before the last. |
| BatchPublish.MalformedParts | jetstreamext/publishbatch.go:434-440 | After a malformed reply that it waited for, AddMsg reports it while PublishMsgBatch goes on. |
| BatchPublish.NilHeaderMet | jetstreamext/publishbatch.go:404-407 | PublishMsgBatch writes to a nil header map exactly when it gets to a message without a header, whatever the server answers. |
| BatchPublish.NilHeaderPanics | jetstreamext/publishbatch.go:404-407 | All messages having headers is exactly what rules this out for every server. |
| BatchPublish.RequestCount | jetstreamext/publishbatch.go:227-238 | Requests in a batch of n: one for each multiple of AckEvery before the commit, one for the first if asked for and not among them, one for the commit. |
| Base64.RoundTrip | kvcodec/base64_codec.go:56-71 | Decoding undoes encoding on every byte sequence (sections 3.2 and 5 of RFC 4648). |
| Base64.EncodeInjective | kvcodec/base64_codec.go:30-38 | Different tokens have different encodings. |
| Base64.EncodedWord | kvcodec/base64_codec.go:30-38 | An encoding holds no separator and is no wildcard. |
| Base64.EncodeAlphabet | kvcodec/base64_codec.go:56-59 | Encodings have exactly the allocated length and only characters that have a value (Base64.DigitExactly). |
| Base64.EncodeExactly | kvcodec/base64_codec.go:33-34 | Character i of an encoding is the entry of the table of section 5 of RFC 4648 at bits 6i to 6i + 5 of the bytes, filled with zeros at the end. |
| Base64.DigitExactly | kvcodec/base64_codec.go:45 | The value of a character is its place in that table; other characters have none. |
| Base64.DecodeExactly | kvcodec/base64_codec.go:45-65 | Digits decode exactly when all are in the table and their number is not 1 modulo 4, and the result encodes to them again, up to left-over bits. |
| Base64.SkipExactly | kvcodec/base64_codec.go:45-65 | Line breaks, and nothing else, are left out before decoding. |
| Base64.Separators | kvcodec/base64_codec.go:31-80 | The separators and wildcards are the characters that the code names. |
| Base64.LengthsExact | kvcodec/base64_codec.go:56-64 | The decoded length of an encoded length is the original one. |
| Base64.DecodeFits | kvcodec/base64_codec.go:63-71 | Decoded data never outgrows its buffer, line breaks and left-over bits included. |
| KeyCodecs.EncodeKey | kvcodec/base64_codec.go:30-38 | The in-place loop encodes every token, each as Base64.EncodeExactly says. |
| KeyCodecs.DecodeKey | kvcodec/base64_codec.go:41-53 | Decodes every token, or fails at the first that cannot be decoded. |
| KeyCodecs.DecodeTokensExactly | kvcodec/base64_codec.go:44-50 | A key is decoded exactly when each of its tokens is, each at its own place. |
| KeyCodecs.EncodeValue | kvcodec/base64_codec.go:56-60 | Fills the allocated buffer with the encoding (Base64.EncodeExactly), completely. |
| KeyCodecs.DecodeValue | kvcodec/base64_codec.go:63-71 | The decoded part of the buffer. |
| KeyCodecs.EncodeFilter | kvcodec/base64_codec.go:75-88 | Encodes all tokens but the wildcards. |
| KeyCodecs.KeyRoundTrip | kvcodec/base64_codec.go:30-53 | Every key comes back, empty tokens included. |
| KeyCodecs.FilterMatchesEncoded | kvcodec/base64_codec.go:73-88 | Every filter matches every key exactly when their encodings match. |
| KeyCodecs.TrimmedExactly | kvcodec/path_codec.go:43 | One slash goes from the end, and the name for the root is "_root_". |
| KeyCodecs.PathRoundTripExactly | kvcodec/path_codec.go:33-62 | A path survives, up to one trailing slash, exactly when it has no dot and its first element is not "_root_". |
| KeyCodecs.StoredRoundTripExactly | kvcodec/path_codec.go:33-62 | A stored key survives decoding and encoding exactly when it has no slash and no dot at either end. |
| Chains.ChainEncodeKey | kvcodec/chain_codec.go:49-59 | The forward loop, with the failing stage. |
| Chains.ChainDecodeKey | kvcodec/chain_codec.go:62-72 | The backward loop, with the failing stage. |
| Chains.ChainEncodeFilter | kvcodec/chain_codec.go:102-121 | Fails at the first stage that cannot filter, otherwise applies all in order. |
| Chains.NewKeyChainCodec | kvcodec/chain_codec.go:32-37 | No codecs are an error; otherwise the chain is a codec again. |
| Chains.EncodesInOrder | kvcodec/chain_codec.go:49-59 | Encoding runs all stages in order, each on what the one before made, and an error names the first that failed. |
| Chains.DecodesInReverse | kvcodec/chain_codec.go:62-72 | Decoding runs them from the last to the first, with the same naming. |
| Chains.FilterRefusedExactly | kvcodec/chain_codec.go:102-121 | A filter is refused before any stage has run exactly when some stage cannot encode filters, and the first such stage is named. |
| Chains.ChainRoundTrip | kvcodec/chain_codec.go:49-72 | A chain of any length gives back what its stages give back, and neither loop fails. |
| Chains.ChainPreservesFilters | kvcodec/chain_codec.go:102-121 | A chain preserves matching when its stages do. |
| Chains.KeptExactly | kvcodec/path_codec.go:33-62 | The paths that come back as they are: plain ones without a trailing slash, and the root. |
| Chains.PathMatchingExactly | kvcodec/path_codec.go:75-77 | On these, encoded filters match encoded keys exactly when the paths match element by element, but for the root key under five filters. |
| Chains.RootNotTaken | kvcodec/path_codec.go:75-77 | One of the five: "/>" takes "/" as a path, and no longer once both are encoded. |
| Chains.PathThenBase64Faithful | kvcodec/README.md:174-183 | The documented chain gives back exactly these paths and preserves matching with the same exception. |
| Chains.Base64ThenPathExactly | kvcodec/chain_codec.go:49-72 | In the other order exactly the keys of one token come back. |
| CodecKV.CodecKeyValue.Put | kvcodec/kv.go:89-101 | Encodes key and value, or reports which failed. |
| CodecKV.CodecKeyValue.Get | kvcodec/kv.go:109-126 | Returns the key asked for, the decoded value and the revision. |
| CodecKV.CodecKeyValue.Create | kvcodec/kv.go:149-161 | Fails on a live key of the same encoding. |
| CodecKV.CodecKeyValue.Update | kvcodec/kv.go:164-176 | Succeeds only at the current revision. |
| CodecKV.CodecKeyValue.Delete | kvcodec/kv.go:179-186 | Leaves a marker under the encoded key. |
| CodecKV.CodecKeyValue.Keys | kvcodec/kv.go:258-275 | All live keys decoded, or an error when one cannot be. |
| CodecKV.FailuresExactly | kvcodec/kv.go:89-275 | Which operation fails how: key before value before the bucket, a list on one key that cannot be decoded; a failure changes nothing. |
| CodecKV.GetDecodes | kvcodec/kv.go:425-451 | What Get finds has the key asked for and the decoded value, or the stored one where it cannot be decoded. |
| CodecKV.BucketLaws | kvcodec/kv.go:89-186 | The bucket behind it: refusals of Create and Update, what Get finds afterwards, and that other keys are untouched. |
| CodecKV.KeysLists | kvcodec/kv.go:258-262 | Keys lists exactly what Get finds. |
| CodecKV.StepRefines | kvcodec/kv.go:89-275 | Every operation through faithful codecs gets the reply of the plain bucket and keeps the two buckets related. |
| CodecKV.BehavesLikePlain | kvcodec/kv.go:89-275 | So does every run from an empty bucket: values, revisions, errors and key sets. |
| CodecKV.Base64BehavesLikePlain | kvcodec/kv.go:57-71 | With base64 codecs on both sides this holds for all keys and values. |
| CodecKV.EncodeFilters | kvcodec/kv.go:199-225 | Encodes all filters or reports the first that fails, with and without EncodeFilter. |
| CodecKV.FilterAcceptedExactly | kvcodec/kv.go:202-225 | Without EncodeFilter a filter is refused exactly for a star or greater-than sign in it or a key that cannot be encoded; with it exactly when it fails. |
| CodecKV.LiteralFilter | kvcodec/kv.go:213-223 | A filter without wildcard bytes takes exactly the key that it is. |
| Tokens.MatchesExactly | kvcodec/kv.go:199-201 | Matching token by token: a star takes any one token, a final greater-than sign the others, at least one, and all else itself. |
| CodecKV.FallbackFaithful | kvcodec/kv.go:213-223 | Without EncodeFilter an accepted filter still takes exactly its own key. |
| CodecKV.Updates | kvcodec/kv.go:366-391 | The watcher wraps entries one by one, in order, and passes the marker on. |
| CodecKV.UpToExactly | kvcodec/kv.go:199-236 | Before the marker a watch delivers exactly the entries that its filters take. |
| CodecKV.UpToInOrder | kvcodec/kv.go:199-236 | In the order of their revisions. |
| CodecKV.NewsExactly | kvcodec/kv.go:199-236 | After it every operation that stores something is delivered exactly if the filters take its key. |
| CodecKV.MarkerExactly | kvcodec/kv.go:366-391 | The marker stands between what was there and what came later, and is missing with updates only. |
| CodecKV.ChosenExactly | kvcodec/kv.go:199-236 | What the watch options leave out of what is delivered. |
| CodecKV.WatchesAgree | kvcodec/kv.go:199-236 | For any matching of keys that the encoded filters are faithful to, a filtered watch delivers, under all options, what the plain one does: the same entries in the same order, the marker, and every later change. |
| CodecKV.Base64WatchesAgree | kvcodec/kv.go:199-236 | With base64 codecs this holds for any filters, after any operations and under any others. |
| CodecKV.PathWatchesAgree | kvcodec/kv.go:199-236 | With the documented chain it holds for watches on paths, if the root is not a key or none of its five filters is used. |

## Left out

- CodecKV.WatchesAgree: watches with history, and writes to the bucket that do not go through the codecs.
- FastPublish.AckedIsPersisted: only the gap-fails mode; with continueOnGap the code promises nothing about persistence.
- FastPublish.PersistsHanded: about runs without losses and failures; what others persist is bounded by FastPublish.StepAccounted.
- FastPublish.WindowHolds: acknowledgements that go back are excluded, because the handler stores any number it is sent.
- Convergence.Converges: one instance per member, whose turns are single steps, and no administrator changes the config meanwhile.
- Group.OneKeyOneMember: about what the stream delivers; a message being handled while its consumer is replaced can be redelivered, as the code notes. Which instance of a member is delivered it is up to the server's pinning.
- The hash behind the partition function, and whether the server keeps the contracts listed above.
- JSON, logging, contexts, clocks, timers and sleeps: a timeout or a tick is a step that may happen.
- Go's integer widths: sequence numbers, flow and MaxMembers are unbounded; MaxMembers beyond the int range is not modelled.
- Aliasing: one message object passed twice to a batch, and slices shared between configs.
- A nil and an empty slice are the same, so a DeepEqual that tells them apart only causes a re-join that the model does not make.
- Consumer settings other than filters (ack wait, pinned TTL, priority groups); pinning is a parameter of a membership change.
- The static group's control loop, which stops at any change and shares the validator.
- Minimal movement of partitions on a membership change: the code only says that it tries.
- The text of a fast batch's reply subject, in which flow, sequence and operation are printed.
- Message options of the fast publisher, the reply inboxes of requests, and the error handler callback.
- The fast publisher's initial error channel, which nothing writes to.
- GetRevision, Purge, History, Status, PutString and the key listers of the codec bucket; ListKeysFiltered shares EncodeFilters but skips keys that cannot be decoded.
- Value codec chains: the same two loops as the key chain.
- Key characters: strings in consumer groups are character sequences, keys in codecs byte sequences; no Unicode normalisation.
- natssysclient, natsext, getbatch, counters, natscontext and the cg command: thin wrappers over requests, files and flags.
