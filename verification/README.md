# Verified model of the coordination core

This project models, in Dafny, the parts of the library in which threads and
coroutines coordinate, and proves what they promise:

* **The ring-buffer protocol.** Producers claim 64-bit wrapping sequence numbers,
  wait until the consumer's barrier is within one buffer length, write a slot and
  publish, in any order in the multi-producer case. Waiters sit on a lock-free
  linked list that publishers and new waiters take, split in place and push back.
  On top of it sits the channel.
* **Cancellation.** Callbacks register, deregister and are run by one sweep over
  chunks of slots, while handles share a state through counts packed into one word.
* **Lifetime and scheduling.** Scoped tasks and the barrier that joins them, the
  thread pool's queue and delay heap, and the manual reset event.

`dafny verify dfyconfig.toml` checks everything.

## How it is built

Each concurrent protocol is a state machine (`BarrierProtocol`, `MpscProtocol`,
`Ring`, `ChannelProtocol`, `StopProtocol`, `ScopeProtocol`, `ResetEvent`,
`ThreadPoolProtocol`): a datatype `State`, a datatype `Step` with one constructor
for each kind of atomic access, `Enabled` and `Apply`. Every thread has a program
point and its locals. `Inv` is the invariant, each kind of step has a lemma that it
keeps the invariant, and the `...Results` modules state what therefore holds in
every state of every run, for any number of threads. The `...Traces` modules say the
same of runs together with the steps that made them: they compute from the steps
alone what was claimed, assigned, published, posted, awaited or requested, by which
thread and with which value or deadline, and prove that the states hold exactly that.
So the laws tie what comes out to what went in, and not to what a state recorded.
The fields marked auxiliary are never read by a step. Stretches in which one thread
runs alone are shown to end as the contract of the corresponding uninterrupted method
says; for the sequence barrier `BarrierLink` ties the machine's waiters to the linked
nodes.

The code that changes memory step by step is modelled by classes and methods:
linked nodes split through tail pointers (`AwaiterNodes`, `SequenceBarriers`,
`MpscAwaiters`), the array of published words (`SequenceMpscs`), the single-producer
sequencer (`SequenceSpscs`), the channel's slots (`Channels`), reference-counted
handles (`StopHandles`), chunks of registration slots (`StopChunks`), the barrier
(`Barriers`), the pool (`ThreadPools`) and the event (`ManualResetEvents`). Where a
state machine describes the same data, a ghost field holds its state and each method
says which step it takes; the contract also states the new contents of what the
method writes, in its own parameters.

Sequence numbers are unbounded integers in the machines and words modulo 2^64 in the
classes. `Words` and `Ranges` say exactly when the two agree: the signed difference
of two words is the true difference if and only if that lies in the signed range,
whatever number of times the words have wrapped, and the first number is the word
for -1.

Usage rules that the code relies on are explicit. The sequence barrier has one
publisher, and its numbers do not decrease. The multi-producer sequencer has one
consumer, with one wait in flight, that publishes to its barrier nothing beyond what
it knows is published (`consumed <= known`). A pushed slot of the channel is
assigned before it is published. Nobody adds to a scope while a decrement that
reached zero is in flight; `ScopeResults.AddingInFlightWakesEarly` shows why. Adding
while some task holds a count always keeps that rule (`ScopeResults.HolderMayAdd`),
and `when_all_scope` keeps it by holding a count of its own, which is that of one more
task.

The rule alone does not make a joiner wait for everything. A joiner that finds no
count and is overtaken by an added task before its own decrement goes on although
that task runs (`ScopeResults.OvertakenJoinerLeavesEarly`); in every other case it
goes on only with no count held (`ScopeResults.WakeFindsNoHolder`). A caller cannot
see what is in flight, but can keep this rule: add only while some task of the scope
has not given back its count, or to a scope that never had a task and is not being
joined. Then no add meets a zero crossing or overtakes a joiner, and every joiner
waits for every task (`ScopeResults.RuledJoinerWaitsForAll`). That a join has ended
is not enough (`ScopeResults.JoinedScopeMayCross`).

Where the code and its comments differ, the code is modelled:

* `sequence_mpsc::add_awaiter` measures every waiter's distance with the target of
  the caller (`macoro/sequence_mpsc.h:689`), which is right for one waiter in flight.
* `any_available` compares strictly, so it can say no although one slot is free
  (`macoro/sequence_mpsc.h:456-458`); see `SequenceMpscs.AvailableIsConservative`.
* The comment on `stop_possible` says the opposite of what it returns
  (`macoro/detail/stop_state.h:50-55`); it is true while a source is left, and from
  the stop request on.
* The flag that notification is complete is set only if a registration state existed
  when the stop was requested (`macoro/detail/stop_state.cpp:428-489`). A callback
  that waits for the flag was taken from a slot, so the flag will come.
* The channel's test of its capacity comes after its sequencer was built
  (`macoro/channel.h:157-165`). The exception for a bad capacity is therefore thrown
  by a channel over the multi-producer sequencer only with assertions off and a
  capacity that is not zero; see `Channels.MakeChannel`. The single-producer
  sequencer's constructor neither checks nor fills anything
  (`macoro/sequence_spsc.h:28-36`), so over it the exception always comes.
* The channel documents that popping a closed channel throws
  (`macoro/channel.h:235-237`); only `front` does. `pop` yields a default value there
  (`macoro/channel.h:104-111`, `macoro/channel.h:324-328`).

## Model

| member | source | states |
|---|---|---|
| Words.InitialSequenceIsMinusOne | macoro/sequence_traits.h:19 | the first number is the word for -1, its successor wraps to 0, and it still precedes 0 |
| Words.DifferenceRefines | macoro/sequence_traits.h:21-24 | the signed difference of two words is the true difference of their numbers if and only if that fits the signed range |
| Words.PrecedesRefines | macoro/sequence_traits.h:26-29 | for distances below 2^63, `precedes` orders words as their numbers are ordered, and words are equal only for equal numbers |
| Words.PrecedesFailsFarAhead | macoro/sequence_traits.h:26-29 | at a distance of 2^63 the later number precedes the earlier one: the bound is needed |
| Words.SlotRefines | macoro/sequence_mpsc.h:422-424 | masking a wrapped number with a power of two minus one finds the slot of the unbounded number |
| Words.WindowSlotsDistinct | macoro/sequence_mpsc.h:405-426 | numbers less than one buffer apart share a slot only if they are equal |
| Ranges.SizeRefines | macoro/sequence_range.h:73-81 | `size` is the number of elements and `empty` holds exactly for none, wherever the ends wrap |
| Ranges.ElementsRefine | macoro/sequence_range.h:70-86 | `back` and indexing are the words of the numbers the range stands for |
| Ranges.FirstAndSkipSplit | macoro/sequence_range.h:88-96 | `first` and `skip` of one count cut a range at the same place, and a count beyond the end takes everything |
| AwaiterNodes.Node.Resume | macoro/sequence_barrier.h:182-190 | the second of the two exchanges on the flag, and no other, continues the coroutine |
| AwaiterNodes.LeastDiffIsMinimum | macoro/sequence_barrier.h:436-460 | the distance computed in the splitting loop is attained by a requeued waiter and undercut by none |
| AwaiterNodes.SplitForPublish | macoro/sequence_barrier.h:339-364 | in-place splitting yields two null-terminated lists that are exactly the later and the reached waiters of the captured list, each in captured order |
| AwaiterNodes.SplitForAdd | macoro/sequence_barrier.h:427-460 | the same for `add_awaiter`, appending to the resume list of earlier rounds and computing the least remaining distance |
| AwaiterNodes.WakeAll | macoro/sequence_barrier.h:379-385 | the resume loop resumes every listed node once with the known number and touches no other |
| SequenceBarriers.SequenceBarrier.constructor | macoro/sequence_barrier.h:54-57 | a new barrier has published the initial number and has no waiters |
| SequenceBarriers.SequenceBarrier.Publish | macoro/sequence_barrier.h:315-386 | from any list, publishing resumes exactly the waiters whose target is reached, now or before, with the published number, and keeps the others queued in order |
| SequenceBarriers.SequenceBarrier.PushFront | macoro/sequence_barrier.h:366-377 | the compare-and-exchange loop links a segment in front of the list, whatever head it expected, and leaves other lists alone |
| SequenceBarriers.SequenceBarrier.TakeBack | macoro/sequence_barrier.h:427-460 | the second half of an adder's round takes whatever is in the list and splits it into the reached and the later waiters; the next round's target is that of the earliest later waiter, and not yet published |
| SequenceBarriers.SequenceBarrier.AddAwaiter | macoro/sequence_barrier.h:389-475 | a waiter whose number is not published joins the queue in front, disturbing nobody; any other takes the list it joined, resumes everything that is reached, whoever pushed it, and leaves the rest queued in order |
| SequenceBarriers.SequenceBarrier.AwaitSuspend | macoro/sequence_barrier.h:166-171 | the coroutine stays suspended exactly when its number is not published, and is then queued; otherwise it has resumed the reached waiters of the list |
| BarrierProtocol.StepPreserves | macoro/sequence_barrier.h:316-386 | every atomic access of publisher or awaiter keeps: each waiter in one place, lists and places agree, and every listed waiter is covered |
| BarrierProtocol.StorePreserves | macoro/sequence_barrier.h:318 | after the store of the published number the publisher itself covers the waiters it satisfied |
| BarrierProtocol.StealPreserves | macoro/sequence_barrier.h:427-460 | taking and splitting the list keeps every waiter in exactly one place |
| BarrierProtocol.PushBackCovered | macoro/sequence_barrier.h:399-425 | after a push the adder's least target covers everything it pushed, until it has compared it |
| BarrierResults.NoLostWakeup | macoro/sequence_barrier.h:316-475 | in every state of every run, a listed waiter whose number is published is covered by a thread that will still look at the list |
| BarrierResults.OnePlace | macoro/sequence_barrier.h:316-475 | a waiter is listed once, or held once by one thread, or was resumed once, or went on without suspending: exactly one of these, so none is lost |
| BarrierResults.ResumedExactlyOnce | macoro/sequence_barrier.h:88-91 | in every run a waiter is listed or held until it is resumed or goes on, is resumed and continued at most once, with a published number not before its target, and is continued once both exchanges are done |
| BarrierResults.NoSatisfiedWaiterSleeps | macoro/sequence_barrier.h:316-475 | with no thread inside an operation, a waiter has been continued, or sits in the list once for a number not published |
| BarrierTraces.AtRestAllContinued | macoro/sequence_barrier.h:316-475 | in terms of the steps alone: with no thread inside an operation, everybody who awaited a number at or before the last one published has continued once, and everybody who has not continued is listed |
| BarrierTraces.ContinuedAfterPublishing | macoro/sequence_barrier.h:88-91 | whoever continued awaited, by its own step, a number at or before one published by then |
| BarrierTraces.GoesOnIfPublished | macoro/sequence_barrier.h:138-159 | a waiter goes on without suspending exactly if the number that it asks for was published when it began |
| BarrierTraces.StateFollowsSteps | macoro/sequence_barrier.h:316-318 | the barrier holds the last number published, and each waiter the target that it asked for |
| BarrierResults.PublishAlone | macoro/sequence_barrier.h:316-386 | an undisturbed publish of the state machine leaves and wakes the same waiters as the imperative method |
| BarrierResults.AdderAlone | macoro/sequence_barrier.h:427-475 | an undisturbed adder that finds something published takes the list, resumes everything published and leaves the rest |
| BarrierResults.AddAlone | macoro/sequence_barrier.h:389-475 | the whole of `add_awaiter`, undisturbed, from any list: with its least target not published it leaves everything listed, otherwise it resumes everything published and leaves the rest in order |
| BarrierLink.SplitsAgree | macoro/sequence_barrier.h:339-364 | splitting the linked nodes by their targets splits the state machine's waiters in the same way |
| BarrierLink.PublishMatches | macoro/sequence_barrier.h:315-386 | an undisturbed publisher of the state machine leaves and resumes the nodes that the contract of `Publish` names |
| BarrierLink.AddMatches | macoro/sequence_barrier.h:389-475 | an undisturbed adder of the state machine leaves and resumes the nodes that the contract of `AddAwaiter` names |
| Ring.StepPreserves | macoro/sequence_mpsc.h:228-265 | claiming, granting, storing, learning and consuming keep: claims tile the numbers, granted ones lie within the buffer, and the slot array represents the published set |
| Ring.StorePreserves | macoro/sequence_mpsc.h:478 | a store into one slot publishes its number and no other number of the window |
| Ring.ConsumePreserves | macoro/sequence_mpsc.h:418-426 | consuming frees slots that still hold the consumed numbers, which read as unpublished for the numbers one buffer ahead |
| Ring.PublishedInWindow | macoro/sequence_mpsc.h:179-185 | no number is published beyond one buffer ahead of what is consumed |
| RingResults.RingIsExclusive | macoro/sequence_mpsc.h:179-185 | in every run two granted numbers that are not consumed share no slot, the slot's previous occupant is released, and each number belongs to one claim |
| RingResults.NobodyIsStuck | macoro/sequence_mpsc.h:220-245 | producers and consumer never wait for each other: in every run, while a claimed number is not consumed, the claim of the first such number has room, and a step other than claiming is possible |
| RingResults.EverythingIsConsumed | macoro/sequence_mpsc.h:220-245 | from every such state, with no further claim, finitely many grants, stores and consumer steps consume everything that was claimed |
| RingTraces.ClaimTakesItsShare | macoro/sequence_mpsc.h:224-241 | a claim takes, for good, the numbers after all earlier claims: as many as it asked for, or one buffer if it asked for more |
| RingTraces.ClaimMakesClaimed | macoro/sequence_mpsc.h:224-241 | exactly these numbers become claimed |
| RingTraces.StateFollowsSteps | macoro/sequence_mpsc.h:228-265 | the numbers claimed, published, known and consumed are exactly those of the steps that claimed, stored, learned and consumed |
| RingResults.ReadIsExact | macoro/sequence_mpsc.h:430-440 | ahead of the consumer a slot reads as a number exactly when that number is published |
| RingResults.ReadMeansPublished | macoro/sequence_mpsc.h:592-608 | even for a reader that was overtaken by any distance, a slot that reads as a number proves it published |
| RingResults.EndIsLongest | macoro/sequence_mpsc.h:430-440 | the end of a scan bounds the longest contiguous published run and stays within one buffer |
| RingResults.FrontBlocksReaders | macoro/sequence_mpsc.h:492-501 | a claim whose first number is unpublished is neither known to the consumer nor passed by any scan from before it |
| RingResults.TailStaysHidden | macoro/sequence_mpsc.h:492-498 | in every intermediate state of publishing a range, scans from before it end where they would have ended without it |
| RingResults.FrontPublishesRange | macoro/sequence_mpsc.h:485-505 | storing the first number last has the effect of publishing each number of the range by itself |
| SequenceMpscs.SequenceMpsc.constructor | macoro/sequence_mpsc.h:400-427 | the fill loop, which wraps, leaves every slot with the previous occupant's number: an initial state of the ring |
| SequenceMpscs.SequenceMpsc.ClaimUpTo | macoro/sequence_mpsc.h:220-245 | a claim takes the next numbers, as many as asked for or a buffer full, moves the counter by as many, and waits for the number one buffer before its last one |
| SequenceMpscs.SequenceMpsc.PublishOne | macoro/sequence_mpsc.h:476-482 | the word is stored into its own slot only, and exactly its number is published in addition |
| SequenceMpscs.SequenceMpsc.LastPublishedAfter | macoro/sequence_mpsc.h:430-440 | on a fixed array the scan of words ends within one buffer length, at the end of the contiguous published run |
| SequenceMpscs.WordReadIsExact | macoro/sequence_mpsc.h:435 | up to one past the window, comparing a slot's word decides whether the number is published |
| SequenceMpscs.SequenceMpsc.PublishTail | macoro/sequence_mpsc.h:492-498 | the loop over all but the first number reaches the state in which the range is still hidden |
| SequenceMpscs.SequenceMpsc.PublishFront | macoro/sequence_mpsc.h:501 | the store of the front number completes the range: exactly its numbers are published in addition |
| SequenceMpscs.SequenceMpsc.PublishRange | macoro/sequence_mpsc.h:485-505 | afterwards exactly the numbers of the range are published in addition; an empty range changes nothing |
| SequenceMpscs.SequenceMpsc.AnyAvailable | macoro/sequence_mpsc.h:454-459 | the word comparison is strict: it holds if and only if the next number is less than a buffer ahead |
| SequenceMpscs.AvailableIsConservative | macoro/sequence_mpsc.h:454-459 | a claim would be granted at once if and only if the next number is at most a buffer ahead, so a positive answer is right and a negative one may be wrong by one |
| MpscProtocol.StepPreserves | macoro/sequence_mpsc.h:476-729 | every atomic access of any number of producers and the one consumer keeps the invariant: the listed waiter lacks a number, or somebody will look at it |
| MpscProtocol.StoreTailPreserves | macoro/sequence_mpsc.h:492-498 | storing a number behind an unpublished first one never completes what a waiter waits for |
| MpscProtocol.StoreLastPreserves | macoro/sequence_mpsc.h:478-481 | the producer of any other store is obliged to look at the list afterwards |
| MpscProtocol.CheckPreserves | macoro/sequence_mpsc.h:595-608 | the second scan of a producer that put the waiter back stops at a missing number, or takes the list again |
| MpscProtocol.AddScanPreserves | macoro/sequence_mpsc.h:672-680 | the consumer's scan after listing itself stops short of its target only at a missing number |
| MpscProtocol.ContinuePreserves | macoro/sequence_mpsc.h:355-371 | the flag's second exchange continues the consumer with a value that covers its target |
| MpscResults.NoLostWakeup | macoro/sequence_mpsc.h:476-729 | in every run, once everything up to the listed waiter's target is published, a producer has yet to look or the consumer is still scanning |
| MpscResults.SleepsOnlyForMissing | macoro/sequence_mpsc.h:508-729 | with all producers outside, a sleeping consumer is listed and lacks an unpublished number |
| MpscResults.ContinuedOnce | macoro/sequence_mpsc.h:355-384 | each wait that suspended continued once, in order, with a value that covers its target and is published throughout |
| MpscResults.ContinuesTheWaiter | macoro/sequence_mpsc.h:377-384 | a step continues only a consumer that waits, once, and hands it the value that its own operation learned |
| MpscTraces.AnsweredInOrder | macoro/sequence_mpsc.h:355-384 | in terms of the steps: the j-th continuation is for the target of the j-th wait that was not satisfied at once, with a value not before it up to which every number was stored by a producer |
| MpscTraces.SleepsOnlyForUnstored | macoro/sequence_mpsc.h:508-729 | with all producers outside, a sleeping consumer waits for its last target, and some number up to it was not stored |
| MpscTraces.StateFollowsSteps | macoro/sequence_mpsc.h:476-729 | what is published, consumed and asked for is what the steps stored, consumed and asked for |
| MpscResults.ProducerAlone | macoro/sequence_mpsc.h:508-621 | a producer that runs undisturbed after its store wakes the consumer exactly if its target is within the contiguous published run, and tells it the end of that run |
| MpscAwaiters.SplitForResume | macoro/sequence_mpsc.h:529-565 | in-place splitting of the multi-producer list: both lists, every node's known number, and the least distance |
| MpscAwaiters.MpscAwaiters.CheckAgain | macoro/sequence_mpsc.h:595-608 | looking again succeeds exactly if everything up to the earliest target is published |
| MpscAwaiters.MpscAwaiters.PutBack | macoro/sequence_mpsc.h:571-608 | the waiters that are not ready are put back in order, and looking again succeeds exactly if the earliest of them is ready by then |
| MpscAwaiters.MpscAwaiters.ResumeReadyAwaiters | macoro/sequence_mpsc.h:508-621 | a list of any length: exactly the waiters within the published run are resumed, with its end, the others stay listed in order and learn it |
| MpscAwaiters.MpscAwaiters.AddAwaiter | macoro/sequence_mpsc.h:624-729 | a waiter all of whose numbers are published is resumed at once, any other is listed |
| MpscAwaiters.MpscAwaiters.AwaitSuspend | macoro/sequence_mpsc.h:355-366 | the coroutine stays suspended exactly when a number up to its target is not published |
| SequenceSpscs.ClaimIsWithinBuffer | macoro/sequence_spsc.h:240-250 | in every run a claim of at least one gets at least one number, at most what it asked for and what the buffer holds, contiguous with all earlier claims and within one buffer of what is released; less than asked only if nothing more is available |
| SequenceSpscs.ClaimsAreExclusive | macoro/sequence_spsc.h:214-250 | claims never overlap, and no two claimed numbers that are not released share a slot |
| SequenceSpscs.SequenceSpsc.ClaimUpTo | macoro/sequence_spsc.h:240-250 | in words, the claim takes the next numbers: what it asked for or, if less, all that is available |
| SequenceSpscs.SequenceSpsc.Target | macoro/sequence_spsc.h:152-158 | every claim waits for the number one buffer before the next one to claim |
| SequenceSpscs.SequenceSpsc.constructor | macoro/sequence_spsc.h:28-36 | a new sequencer is in the initial state, its counter one past the initial number |
| SequenceSpscs.RunKeepsInv | macoro/sequence_spsc.h:147-258 | in every run claims tile the numbers and stay within one buffer of what is released |
| SpscTraces.StateFollowsSteps | macoro/sequence_spsc.h:81-250 | claimed, published and released numbers are those of the steps: each claim takes what it asked for or, if less, all that its wait said is available |
| SequenceSpscs.SequenceSpsc.ClaimOne | macoro/sequence_spsc.h:177-180 | one claim is the claim of one number, the next one |
| SequenceSpscs.SequenceSpsc.PublishRange | macoro/sequence_spsc.h:81-84 | publishing a range publishes its last number, and hence everything before |
| SequenceSpscs.AvailableRefines | macoro/sequence_spsc.h:242-246 | the number of available slots computed in words is exact, hence at least one |
| ChannelProtocol.StepPreserves | macoro/channel.h:67-85 | every step of senders and receiver keeps slots, assigned values and popped values in agreement |
| ChannelProtocol.AssignPreserves | macoro/channel.h:135-144 | assigning through a push wrapper disturbs no other slot and nothing popped |
| ChannelProtocol.ReleaseKeepsSlots | macoro/channel.h:72-78 | the slot emptied before the barrier is published comes back empty for the number one buffer ahead |
| ChannelTraces.PopsWhatWasPushed | macoro/channel.h:192-331 | first in, first out, in terms of the steps alone: the j-th pop finds the value that the sender of the j-th claim assigned last, and nothing exactly if that claim was made to close the channel |
| ChannelTraces.PopFindsItsSlot | macoro/channel.h:299-328 | what the j-th pop found is what was in the front slot when it was made, and never changes |
| ChannelTraces.RecordsAreAssigned | macoro/channel.h:135-144 | the value kept for a claim is at all times the one that its own sender assigned last |
| ChannelResults.DrainedPoppedAll | macoro/channel.h:324-328 | when everything claimed is released, every claim has been popped |
| ChannelResults.PublishedIsFinal | macoro/channel.h:192-196 | what was popped stays, and what was published does not change any more |
| ChannelResults.EmptyWhenGranted | macoro/channel.h:192-196 | a data slot is empty whenever a sender is granted it |
| ChannelResults.FrontTellsClosed | macoro/channel.h:299-306 | `front` finds an empty slot exactly at the position of a close, and elsewhere the value its sender assigned |
| ChannelResults.FreshWrapperHoldsPopped | macoro/channel.h:104-111 | the first read through a pop wrapper yields what the pop found |
| ChannelResults.SenderOrder | macoro/channel.h:198 | a claim made after another one is popped after it, so one sender's values come out in the order of its pushes |
| Channels.Channel.constructor | macoro/channel.h:157-165 | a new channel is in the initial state, with all slots empty and the first number 0 |
| Channels.Channel.ClaimOne | macoro/channel.h:198 | a push or a close claims the next number and waits for the one a buffer before it |
| Channels.Channel.Assign | macoro/channel.h:135-144 | the given value goes into the granted number's slot and into no other, and is the number's value from then on |
| Channels.Channel.Publish | macoro/channel.h:79-82 | publishes exactly the number given |
| Channels.Channel.Push | macoro/channel.h:192-196 | the given value goes into the granted number's slot and into no other, and exactly that number is published |
| Channels.Channel.Front | macoro/channel.h:299-306 | reports closure exactly at a number claimed by a close, and otherwise yields the value pushed there |
| Channels.Channel.Pop | macoro/channel.h:324-328 | hands out a wrapper for the front number, without throwing |
| Channels.Channel.Read | macoro/channel.h:104-111 | yields what is in the slot: through a fresh wrapper the pushed value, or a default at a closing number |
| Channels.Channel.Release | macoro/channel.h:67-85 | empties the slot, then lets the barrier publish the front number, then moves the front on |
| Channels.PowerOfTwoTest | macoro/channel.h:161 | the constructor's bit test accepts exactly the powers of two |
| Channels.MakeChannel | macoro/channel.h:157-165 | over the multi-producer sequencer, which is built before the capacity is tested: a channel is made exactly for a power of two; another capacity aborts with assertions on, throws with assertions off unless it is zero, and zero never reaches the test |
| Channels.EmptyRingGoesAstray | macoro/sequence_mpsc.h:405-426 | for capacity zero the fill loop starts one past its last number and the mask keeps every bit: each of the 2^64 stores has its own index, in an array that has none |
| StopProtocol.StepPreserves | macoro/detail/stop_state.cpp:409-617 | every atomic access of constructors, destructors and the sweep keeps: a registration is in its slot or taken, once, and kept ones lie ahead of the sweep |
| StopProtocol.ClaimPreserves | macoro/detail/stop_state.cpp:269-283 | storing a registration in a free slot, even behind the sweep, owes no call until the second look at the flag |
| StopProtocol.TakePreserves | macoro/detail/stop_state.cpp:461-481 | the exchange that takes a registration elects the sweep as its only caller, and the call is pending until it begins |
| StopProtocol.CallPreserves | macoro/detail/stop_state.cpp:474-481 | beginning the call of what was taken keeps the invariant: it begins once, and no destructor of that callback has returned before |
| StopProtocol.LeavePreserves | macoro/detail/stop_state.cpp:554-560 | emptying its own slot by compare-and-exchange never disturbs another registration that reused the slot |
| StopProtocol.WalkPreserves | macoro/detail/stop_state.cpp:440-486 | the sweep passes no kept registration, although lists and chunks appear while it walks |
| StopResults.RunsAtMostOnce | macoro/detail/stop_state.cpp:409-567 | in every run no callback is called twice |
| StopResults.RanOrAhead | macoro/detail/stop_state.cpp:427-567 | once stop is requested, a constructed callback has run exactly once, or sits in a slot that the sweep has yet to look at, or is what the sweep has just taken and is about to call |
| StopResults.RanExactlyOnce | macoro/detail/stop_callback.h:93-113 | when `request_stop` has returned, every constructed callback has run exactly once |
| StopTraces.NeverAfterDestroy | macoro/detail/stop_callback.h:70-86 | after the destructor returned the callback never starts, and unless the destructor's thread is the one that requested the stop it is not running either |
| StopTraces.DeregistrationOf | macoro/detail/stop_state.cpp:580-617 | a deregistration that finds its registration prevents the call for good; one that does not comes after the sweep took it, and on the thread that requested the stop after its call began |
| StopResults.DestroyedAfterCall | macoro/detail/stop_state.cpp:596-617 | when the destructor of a callback returns, the callback was called once if the sweep took it, and never otherwise |
| StopTraces.RequesterNeverWaits | macoro/detail/stop_state.cpp:580-617 | the thread whose step requested the stop never waits: a destructor that it runs inside a callback can always go on, from its first access, and returns after at most two |
| StopTraces.OnlyOthersWait | macoro/detail/stop_state.cpp:608-616 | whoever waits in a destructor does so on the thread that entered it, and that thread did not request the stop |
| StopTraces.RequesterSweeps | macoro/detail/stop_state.cpp:411-438 | the stop is requested exactly from the first request on, and the notifying thread recorded before any registration is taken is the one that made it |
| StopTraces.DestroyerDestroys | macoro/detail/stop_callback.h:70-86 | a destructor stays on the thread that entered it |
| StopTraces.CalledOnlyOnRequest | macoro/detail/stop_callback.h:93-113 | no callback is called before some thread requested a stop |
| StopTraces.AllCalledOnRequest | macoro/detail/stop_state.cpp:427-489 | when the sweep of the requesting thread is over, every constructed callback that is not being destroyed was called once |
| StopTraces.EmptyExactlyIfImpossible | macoro/detail/stop_callback.h:93-113 | a callback stays empty exactly if no stop was requested and all sources made are gone when it is constructed |
| StopResults.EmptyIsNeverOwed | macoro/detail/stop_callback.h:109-112 | a callback constructed when no stop was possible is never owed a call, because none is ever requested |
| StopResults.SweepGetsNearer | macoro/detail/stop_state.cpp:440-489 | every access of the sweep brings it nearer to its end |
| StopResults.SweepAloneServesAll | macoro/detail/stop_state.cpp:427-489 | the undisturbed sweep ends, has then run every constructed callback, and releases every destructor that waits |
| StopWord.PackDetermines | macoro/detail/stop_state.h:96-101 | while both counts are below 2^31 the packed word determines both flags and both counts |
| StopWord.SourcesCarry | macoro/detail/stop_state.h:96-101 | one source too many reads as one more token and no source: the bound is needed |
| StopWord.AddSourceRefines | macoro/detail/stop_state.cpp:380-383 | adding a source reference counts one more source and changes nothing else, if and only if the count stays in its field |
| StopWord.AddTokenRefines | macoro/detail/stop_state.cpp:366-369 | adding a token reference counts one more token, if and only if the count stays in its field, and never touches the sources |
| StopWord.SubRefines | macoro/detail/stop_state.cpp:371-392 | subtracting a reference borrows from no other field |
| StopWord.OrRequestedRefines | macoro/detail/stop_state.cpp:411 | the fetch-and-or sets the requested flag and nothing else |
| StopWord.AddCompleteRefines | macoro/detail/stop_state.cpp:488 | adding the complete flag sets it if and only if it was not set |
| StopWord.StopPossibleRefines | macoro/detail/stop_state.cpp:394-397 | the mask finds a source left or a flag set; tokens alone make no stop possible |
| StopWord.LastReleaseRefines | macoro/detail/stop_state.cpp:371-392 | a release sees the last reference exactly if none is left after it |
| StopHandles.StopState.ReleaseTokenRef | macoro/detail/stop_state.cpp:371-378 | the release that leaves no handle, and no other, deletes the state |
| StopHandles.StopState.ReleaseSourceRef | macoro/detail/stop_state.cpp:385-392 | the same for sources |
| StopHandles.StopState.SetRequested | macoro/detail/stop_state.cpp:411-416 | only the first caller goes on to notify |
| StopHandles.StopState.SetComplete | macoro/detail/stop_state.cpp:488 | the one addition of the complete flag sets it and nothing else |
| StopHandles.StopState.StopPossible | macoro/detail/stop_state.cpp:394-397 | a stop is possible exactly while a source is left or a flag is set |
| StopHandles.StopState.StopRequested | macoro/detail/stop_state.cpp:399-402 | reads exactly the requested flag |
| StopHandles.StopToken.FromState | macoro/detail/stop_token.cpp:101-108 | a new token is one more counted handle of its state |
| StopHandles.StopToken.Move | macoro/detail/stop_token.cpp:28-32 | moving passes the reference on without touching the word |
| StopHandles.StopToken.Destroy | macoro/detail/stop_token.cpp:34-40 | a destroyed token is no longer counted, and the state is deleted exactly if it was the last handle |
| StopHandles.StopToken.AssignCopy | macoro/detail/stop_token.cpp:42-60 | copy assignment releases the old reference and takes a new one, and does nothing between handles of one state |
| StopHandles.StopToken.AssignMove | macoro/detail/stop_token.cpp:62-76 | move assignment releases the old reference and passes the other one on, and self-assignment does nothing |
| StopHandles.StopToken.Swap | macoro/detail/stop_token.cpp:78-81 | swapping exchanges the references of two tokens and leaves both words as they were |
| StopHandles.StopSource.constructor | macoro/detail/stop_source.cpp:11-14 | a new source owns a new state with one counted handle |
| StopHandles.StopSource.Copy | macoro/detail/stop_source.cpp:16-23 | copying counts one more source |
| StopHandles.StopSource.Move | macoro/detail/stop_source.cpp:25-29 | moving passes the reference on without touching the word |
| StopHandles.StopSource.Destroy | macoro/detail/stop_source.cpp:31-37 | a destroyed source is no longer counted, and deletes the state exactly if it was the last handle |
| StopHandles.StopSource.AssignCopy | macoro/detail/stop_source.cpp:39-57 | copy assignment releases the old source reference and takes a new one, and does nothing between sources of one state |
| StopHandles.StopSource.AssignMove | macoro/detail/stop_source.cpp:59-73 | move assignment releases the old source reference and passes the other one on |
| StopHandles.StopSource.GetToken | macoro/detail/stop_source.cpp:80-83 | one more token of the source's state, or an empty one |
| StopHandles.StopCallback.constructor | macoro/detail/stop_callback.h:93-113 | with a stop possible and not requested the callback is registered and keeps the token's reference; otherwise the reference is released, after one call if stop was requested |
| StopHandles.StopCallback.Release | macoro/detail/stop_callback.h:79-86 | a destroyed callback is no longer counted |
| StopChunks.ChunkSizesArePowersOfTwo | macoro/detail/stop_state.cpp:296-300 | entry counts start at 16, double up to 1024, and are powers of two |
| StopChunks.RotationVisits | macoro/detail/stop_state.cpp:253-262 | the masked rotated scan visits every slot once |
| StopChunks.MaskedIndex | macoro/detail/stop_state.cpp:253-261 | in 32-bit unsigned numbers, wrapping twice, the masked index is still the rotated one |
| StopChunks.SearchedAgain | macoro/detail/stop_state.cpp:238-250 | however wrong a chunk's approximate count is, it is searched within eleven turns |
| StopChunks.Chunk.Scan | macoro/detail/stop_state.cpp:251-289 | from any rotation, also a count below the threshold, the scan takes the free slot whose turn comes first, fails only in a full chunk, and sets the approximate count by its rule |
| StopChunks.Chunk.TryChunk | macoro/detail/stop_state.cpp:238-290 | a chunk is searched if its count is positive or at or below the threshold, however far below, and skipped otherwise; searched in vain it has no free slot; the count follows its rule |
| StopChunks.CallbackList.constructor | macoro/detail/stop_state.cpp:184-200 | a new list holds the registration in its first slot and nothing else |
| StopChunks.CallbackList.SearchBack | macoro/detail/stop_state.cpp:234-291 | going back from the last chunk, the slot is taken in the first chunk that seems to have free ones and has one; every chunk passed over did not seem to, or has none, and has its count lowered or reset |
| StopChunks.CallbackList.Append | macoro/detail/stop_state.cpp:296-320 | the new chunk has its size, holds the registration in its first slot, becomes the tail, and leaves all other slots and counts alone |
| StopChunks.CallbackList.FindLast | macoro/detail/stop_state.cpp:209-232 | from any chunk as approximate tail the true last chunk is found and becomes the tail |
| StopChunks.CallbackList.AddRegistration | macoro/detail/stop_state.cpp:207-326 | whatever the approximate tail and counts, exactly one free slot is taken and recorded: in the last chunk that seems to have free slots and has one, and in a new chunk exactly if there is no such chunk; no other slot changes |
| StopChunks.CallbackList.RemoveRegistration | macoro/detail/stop_state.cpp:569-594 | only the registration's own slot is emptied, if it still sits there, and the free count follows its rule |
| StopChunks.CallbackList.AddThenRemove | macoro/detail/stop_state.cpp:207-326 | adding and removing leaves every old slot as it was |
| ScopeProtocol.StepPreserves | macoro/async_scope.h:263-358 | every access of tasks, owners and joiner keeps the count, the elections and the places of exceptions in agreement |
| ScopeProtocol.ElectOk | macoro/async_scope.h:272-320 | of the two that set a bit of the completion word the second one acts: the completing task |
| ScopeProtocol.OwnedOk | macoro/detail/scoped_task_promise.h:322-411 | the same for the owner that drops or awaits |
| ScopeProtocol.CrossPreserves | macoro/barrier.h:102-113 | whoever brings the count to zero resumes the stored joiner, and only after the last task |
| ScopeProtocol.JoinerPreserves | macoro/barrier.h:126-139 | a joiner that increments, stores its handle and decrements is never left behind |
| ScopeProtocol.LowerPreserves | macoro/barrier.h:102-108 | the task that gives back the last count, and no other, has to look for a joiner |
| ScopeResults.OneDestroyer | macoro/async_scope.h:287-316 | every frame is destroyed at most once, and once when task and owner are done |
| ScopeResults.ExceptionOnce | macoro/async_scope.h:294-301 | an exception is rethrown to the awaiter or put once into the scope's list, never both, and in the end one of them |
| ScopeTraces.ExceptionGoesWhereChosen | macoro/async_scope.h:294-301 | in terms of the steps: when all is done, an exception that the body threw was rethrown if the owner awaited the task, and is in the scope's list once if it dropped the task; without one there is neither |
| ScopeTraces.TasksAreAsTold | macoro/async_scope.h:263-358 | whether a task's body threw and whether its owner awaits it is at all times what their own steps said |
| ScopeResults.AwaiterResumedOnce | macoro/detail/scoped_task_promise.h:380-397 | an awaiter is resumed at most once, by a completed task, and never sleeps behind a task that is done |
| ScopeResults.JoinedOnce | macoro/barrier.h:126-139 | every join but the one in progress has ended, once |
| ScopeResults.WakesOnlyWhenComplete | macoro/barrier.h:102-139 | a joiner goes on only after every task of the scope has completed, also those added while it slept, unless it was overtaken; and in any case after those that were there when it began |
| ScopeTraces.JoinerWaitsForBodies | macoro/barrier.h:102-139 | a joiner goes on only after the bodies of all tasks ended that had been added when it began, and unless it was overtaken, of all tasks added to the scope |
| ScopeResults.WakeFindsNoHolder | macoro/barrier.h:102-139 | a joiner goes on with no count held if and only if it was not overtaken: had found no count, and a task was added before its own decrement |
| ScopeResults.OvertakenJoinerLeavesEarly | macoro/barrier.h:126-139 | from any empty scope: an add between the joiner's increment and its decrement makes `await_suspend` return its own handle while the added task is in its body |
| ScopeResults.HolderMayAdd | macoro/barrier.h:81-113 | while any task holds a count, adding is allowed: no zero crossing is in flight |
| ScopeResults.DisciplinedJoinerWaitsForAll | macoro/when_all_scope.h:70-81 | if tasks are added only while a task holds a count or no join is in progress, and never while a zero crossing is in flight, every joiner goes on only after every task of the scope has completed |
| ScopeResults.RuledIsDisciplined | macoro/barrier.h:81-113 | a caller who adds only while some task has not given back its count, or to a scope that never had a task and is not being joined, keeps both conditions without seeing what is in flight |
| ScopeResults.RuledJoinerWaitsForAll | macoro/barrier.h:102-139 | in every run of the code, with adds restricted by that caller's rule alone, every joiner goes on only after every task of the scope has completed |
| ScopeResults.JoinedScopeMayCross | macoro/barrier.h:102-139 | a whole join can end with all tasks completed while the last one has yet to look for a joiner: a joined scope is not safe to add to from outside |
| ScopeResults.JoinerIsNotForgotten | macoro/barrier.h:102-139 | a joiner sleeps only while some task has yet to give back its count or to look for the joiner |
| ScopeResults.JoinAlone | macoro/barrier.h:126-139 | an undisturbed joiner goes on at once if no count is held and sleeps otherwise, and leaves the count as it was |
| ScopeResults.LastTaskWakes | macoro/barrier.h:102-113 | the last task to give back its count, undisturbed, wakes the sleeping joiner |
| ScopeResults.AddingInFlightWakesEarly | macoro/when_all_scope.h:70-81 | without the rule about adding a joiner is woken before a task has finished its body |
| Barriers.Barrier.Decrement | macoro/barrier.h:102-113 | the decrement that reaches zero, and no other, hands over the waiting coroutine |
| Barriers.Barrier.AwaitSuspend | macoro/barrier.h:126-139 | with nothing to wait for the coroutine goes on, otherwise it is left to the last decrement; the count is as before |
| ThreadPoolProtocol.StepPreserves | macoro/thread_pool.h:75-155 | every region under the mutex conserves handles and keeps the heap, its deadlines and the log in order |
| ThreadPoolProtocol.HandlesConserved | macoro/thread_pool.h:75-155 | every handle is at all times, as often as it was given, in the queue, the heap, being run or done |
| PoolTraces.NotBeforeItsDeadline | macoro/thread_pool.h:104-133 | in terms of the steps: a delayed handle is taken as the request that its index names, at or after the deadline asked for there, unless a cancellation named that index |
| PoolTraces.EveryRequestOnce | macoro/thread_pool.h:104-155 | every request with a deadline is in the heap or was taken, exactly once |
| PoolTraces.QueueIsFirstInFirstOut | macoro/thread_pool.h:75-84 | what was taken from the queue and what is still in it are the posted handles, in the order of posting |
| PoolTraces.StateFollowsSteps | macoro/thread_pool.h:75-257 | the handles given, the work, the clock, the workers and the indices issued are those of the steps |
| ThreadPoolProtocol.TurnTakesTheEarliest | macoro/thread_pool.h:391-443 | a worker takes the earliest due operation, else the front of the queue, and nothing only if there is neither |
| ThreadPoolProtocol.ReturnsOnlyWhenIdle | macoro/thread_pool.h:391-394 | in every run, a worker that has returned was, in the very state before, at the loop's test with queue and heap empty and no work, when everything given so far was done or in some worker's hands |
| ThreadPoolProtocol.ClosedPoolDidEverything | macoro/thread_pool.h:75-155 | whenever nothing is queued, delayed or promised and no worker is inside a handle, everything ever given to the pool is done, as often as it was given |
| PoolTraces.IdleDidAllPosted | macoro/thread_pool.h:75-155 | once the pool is idle and nobody runs a handle, exactly what the steps gave to the pool is done, in the order of posting for the queue, and all work taken up was let go |
| ThreadPoolProtocol.CancelledIsDue | macoro/thread_pool.h:136-155 | after a cancellation the operation is due at once, wherever in the heap it was |
| ThreadPoolProtocol.CancelledExactly | macoro/thread_pool.h:142-151 | exactly the operation with the given index is brought forward |
| ThreadPools.ThreadPoolState.PostAfter | macoro/thread_pool.h:104-133 | adds an operation with the next index, the handle and the deadline given, and nothing else, to the heap, earliest first; after a stop it queues the handle instead |
| ThreadPools.ThreadPoolState.Post | macoro/thread_pool.h:75-84 | queues the handle at the back and changes nothing else |
| ThreadPools.ThreadPoolState.WorkDown | macoro/thread_pool.h:240-257 | waiting workers are woken exactly when the last piece of work is let go |
| ThreadPools.ThreadPoolState.CancelDelayOp | macoro/thread_pool.h:136-155 | the search and the new heap take the cancel step, and workers are notified exactly if the operation was found |
| ThreadPools.ThreadPoolState.Turn | macoro/thread_pool.h:391-443 | takes the front of the heap if it is due, else the front of the queue, else returns, waits or looks again, by its rule |
| ThreadPools.ThreadPoolState.TryDispatch | macoro/thread_pool.h:86-102 | a worker of the pool goes on inline; any other handle is queued |
| ThreadPools.Hurry | macoro/thread_pool.h:142-151 | the search loop changes the first operation with the index and no other |
| ResetEvent.StepPreserves | macoro/manual_reset_event.h:129-193 | every access of waiters, setters and resets keeps the links, the stack and the chains in agreement |
| ResetEvent.PushPreserves | macoro/manual_reset_event.h:175-192 | a successful exchange puts the waiter on top of the very stack it linked itself to |
| ResetEvent.ResumedByTheNextSet | macoro/manual_reset_event.h:129-149 | no waiter is resumed twice; a suspended one is on the stack, or in the hands of the set that came next; and the one that resumed it is that set |
| EventTraces.PassesExactlyIfSet | macoro/manual_reset_event.h:168-193 | in terms of the steps: an access lets a waiter pass exactly if the last set or reset before it was a set, and suspends it exactly if its exchange finds the word as it saw it |
| EventTraces.ResumedBySetAfter | macoro/manual_reset_event.h:129-149 | a waiter that suspended is resumed by the next set, after it suspended, that found the event not set |
| EventTraces.EventFollowsSteps | macoro/manual_reset_event.h:129-155 | the event is set exactly if the last set or reset was a set |
| ResetEvent.SetLeavesNoneBehind | macoro/manual_reset_event.h:129-149 | once every set has gone through its chain, only an event that is not set has suspended waiters |
| ResetEvent.SetterGoesOn | macoro/manual_reset_event.h:141-147 | a set can always take the next link and resumes its chain from the newest waiter to the oldest |
| ManualResetEvents.ManualResetEvent.Set | macoro/manual_reset_event.h:129-149 | every waiter on the stack is resumed once, the event is set and nobody is left |
| ManualResetEvents.ManualResetEvent.Reset | macoro/manual_reset_event.h:151-155 | an event that is not set keeps its waiters |
| ManualResetEvents.ManualResetEvent.AwaitSuspend | macoro/manual_reset_event.h:168-193 | a waiter passes an event that is set and goes on top of the stack otherwise |

## Left out

- Weak memory orders: every atomic access is one sequentially consistent step; spurious failure of weak compare-and-exchange only adds retries and is not modelled.
- Coroutine machinery, handles, symmetric transfer, type traits and tracing: resuming is recorded as an event; a resumed body is not modelled, but may start any operation.
- Physical lifetime of frames, nodes and chunks: it is proved who resumes, destroys or frees, not that nobody touches the memory during the election.
- Uninterrupted methods and interleavings: the imperative methods run without interruption; what other threads can do in between is covered by the state machines, whose steps are the methods' atomic accesses. The sweep of `request_stop` and the completion word of scoped tasks are modelled as state machines only, because all they do is race.
- Multi-producer sequencer with several waits in flight: the code is not meant for it; many waiters are treated on the sequence barrier. `MpscAwaiters.MpscAwaiters.ResumeReadyAwaiters` nevertheless covers a list of any length.
- Waits of producers inside the multi-producer machine: a claim is granted as soon as the consumer's barrier allows it; that the producer then wakes up is the sequence barrier's result.
- Distances of 2^63 or more between live numbers: the word comparisons then fail, as `Words.PrecedesFailsFarAhead` shows, and the methods require shorter distances.
- Reports of a join: the joiner takes the exceptions out of the scope when its awaiter is made, so the model stops at the scope's list of exceptions.
- Failed allocation, throwing callbacks (they terminate), the choice of a callback list by thread hash, and retries inside `add_registration` that need another thread: in `StopProtocol` the claimed slot is any free one, and `StopChunks` proves the uninterrupted search. `StopHandles` likewise runs a registration uninterrupted, so that it fails exactly if stop was requested before.
- The width of the approximate free count of a chunk: an integer without bound in `StopChunks`; that 2^31 decrements, made while no scan ends, would wrap it is not captured. The 32-bit slot indices are modelled.
- Buffers of 2^63 slots or more: no allocation of that size succeeds.
- References handed out by `front` and by push wrappers: a value changed through them is an assignment to the slot for a sender, and for the receiver of `front` is not modelled.
- Channels.MakeChannel: makes the channel over the multi-producer sequencer only; over the single-producer one the outcome is the test of `Channels.PowerOfTwoTest` alone.
- The channel over the single-producer sequencer: the channel's results are stated over the multi-producer ring; with one producer the same steps are taken, published in order.
- The wait operations inside `claim_one` and `claim_up_to` of the single-producer sequencer: what they return is an input that the barrier's results justify.
- Real clocks, mutexes and condition variables of the pool: a region under the mutex is one step, time is an input that never decreases, and a waiting worker may wake at any time. The standard library's heap operations are replaced by a method that brings the earliest operation to the front.
- ThreadPools.ThreadPoolState.Turn: reads the clock once, where the loop reads it twice; a later second reading is the same as a clock step before the turn.
- Eager tasks, `when_all`, `sync_wait`, `take_until`, `timeout`, `wrap`, `result`, the `win32` files, build scripts and tests: two-party handshakes or outside the coordination core.
