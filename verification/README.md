# A verified model of microvm-terminal

microvm-terminal gives every user a terminal in a Firecracker VM of their own. A control plane starts, watches and
removes the VMs; a proxy lets the VMs reach an upstream model API under a quota, with an audit log. This project is a
Dafny model of the parts of both services whose correctness is a matter of whole runs, and proves what those parts
promise.

| modules | what they model |
|---|---|
| Lifecycle, LifecycleCounts, LifecycleInvariant, LifecycleSafety, LifecycleTheorems, LifecycleBuild, LifecyclePool, LifecycleCapacity, LifecycleRest, LifecycleWarm, LifecycleRuns, LifecycleOvershoot, LifecycleDrop | VM sessions: Host, Manager, launcher, warm-pool builders, watch and process-exit goroutines, as one transition system |
| Sessions, Manager, Host | Session, Manager and Host as objects, one call at a time |
| WarmPool, Netalloc | the pool of pre-booted VMs; the allocator of addresses, MACs, TAP names and vsock CIDs |
| Geometry | terminal sizes across a guest's boot |
| Serial, SerialSeam | the serial ring buffer, rewritten in place; attach, send and cleanup |
| Reaper | the idle reaper against clients that come and go |
| Quota, Forward, ForwardOvershoot | reservations, settlement, caps and the audit ledger |
| Stream | copying responses while reading token usage |
| LoginLimiter, Slug, Cookie, Text | login rate limit, owner names, the signed cookie |
| Keys | key rotation and round-robin assignment |
| Common | options, results, bytes |

Concurrent code is modelled step by step: each region that the source runs under one lock, each channel operation and
each external command is one step of the goroutine that runs it, and a run is any sequence of steps of any number of
goroutines. Theorems about runs hold for every interleaving. Sequential code that updates state is modelled by classes
and loops, each proved against a function; the theorems are then about those functions.

External commands (TAP devices, directories, VM processes, random numbers) either succeed or fail, as the environment
chooses, those that give something back included. Clocks are parameters that never go back. In the runs of Geometry the
writes on a guest connection succeed. HMAC, JSON decoding and Unicode case mapping are arbitrary functions; of Unicode
it is assumed only that slug characters are lower case and not white space, and that no white space is a letter. Session
ids are unique and fixed.

`dafny verify dfyconfig.toml` checks everything.

## Where the code does less than its comments say

The model follows the code. Where a comment or document promises more, the project gives a run that breaks the promise
and the exact condition under which the code keeps it.

- A released address is said to return to the pool (netalloc.go lines 5 and 6), but Alloc only moves on: after the whole
  block was issued it fails although released addresses are free, `Netalloc.ReleasedIsLost`. Alloc finds every free
  address exactly in lifetimes of fewer calls than the block has addresses: `Netalloc.ReturnsToPoolIff`. The broadcast
  address is said to be skipped (line 64) and is issued exactly when the block is exhausted:
  `Netalloc.BroadcastIssuedIff`.
- A Create that fails undoes what it did, with one exception: CreateTAP makes its device with the first of three
  commands, and its caller does not remove the device when a later one fails: `Manager.HalfMadeTapStays`. With working
  releases that is the only case, `Manager.CleanLaunchIff`; in general what stays is exactly what
  `Manager.NothingLeftIff` says.
- The session limits of Host and Manager are kept, in every configuration, exactly when creating calls do not overlap,
  no VM is admitted, or there are no addresses to pass the limit with: `LifecycleOvershoot.HostLimitIff`,
  `MgrLimitIff`. With k overlapping calls the excess is at most k - 1, and is attained.
- CreateWarm at capacity drops the VM it has already taken, which then runs outside the Host: `LifecycleDrop.DropRun`.
  That can happen exactly when VMs are admitted and the block has more addresses than the limit of the Host:
  `LifecycleDrop.StrandedIff`.
- The warm pool launches a VM for every call that finds it empty as well. It can exceed its target by the number of such
  calls and by no more, so the target is kept in all runs only where there is no such call: `LifecycleWarm.WorkKeptIff`.
- The newest terminal size reaches the guest in all runs exactly when guest connections do not overlap, and is the last
  to reach it exactly when senders do not overlap either, unless nothing is sent at all: `Geometry.DeliveredIff`,
  `Geometry.CurrentIff`.
- The serial cleanup closes a channel that a send may still be under way to, exactly when a chunk is under way as the
  cleanup takes the lock: `SerialSeam.UnhookCrashIff`.
- The per-minute limit admits twice its number in some minutes and never more: `Quota.AnyMinuteIff`. A minute admits
  only its number exactly when the window is over or full as it begins: `Quota.OnlyOneWindowIff`.
- The caps are checked before a request and charged after it. The request cap is kept exactly when the requests of a
  session do not overlap, a token cap exactly when at most one token can be open or all requests together carry no more
  than the cap: `ForwardOvershoot.RequestCapIff`, `TokenCapIff`. One request at a time can pass a token cap.
- Five logins per minute is in fact up to ten in a closed minute: `LoginLimiter.LimitIff`.
- mergeUsage is said to add output tokens and takes the maximum of both counts, which is the sum exactly when at most
  one line of the stream reports output tokens: `Stream.BestIsSumIff`, `Stream.SecondDeltaLost`.

## Model

| member | source | states |
|---|---|---|
| LifecycleInvariant.StepHands | control-plane/internal/session/host.go:53-94 | A step of any goroutine keeps: a session is in one pair of hands at a time (a creating call, the pool, the Host, or dropped), and only a launched session is ever placed. |
| LifecycleInvariant.StepTear | control-plane/internal/session/manager.go:224-245 | A step keeps: a session outside the Manager map is in at most one teardown, and with none running the whole action sequence was done. |
| LifecycleInvariant.StepDone | control-plane/internal/session/session.go:244-249 | A step keeps: the done channel is closed at most once, only after the session left the Manager, and before any later teardown action. |
| LifecycleInvariant.StepWatch | control-plane/internal/session/host.go:118-137 | A step keeps: every session in the Host map has a watch goroutine, or a creator about to start one. |
| LifecycleInvariant.StepHook | control-plane/internal/session/host.go:118-172 | A step keeps: hook calls made plus hook calls to come are one for each departure that found a hook registered, and none otherwise. |
| LifecycleInvariant.StepAddress | control-plane/internal/session/manager.go:83-171 | A step keeps: an address is in use exactly while one goroutine or the Manager map is responsible for it. |
| LifecycleInvariant.StepLive | control-plane/internal/session/host.go:53-94 | A step keeps: every VM the Manager runs is held by somebody who can place or destroy it, or is one that CreateWarm dropped. |
| LifecycleInvariant.StepOthers | control-plane/internal/session/manager.go:224-245 | A step of one goroutine leaves what every other goroutine on the same session relies on intact. |
| LifecycleSafety.StepKeeps | control-plane/internal/session/manager.go:74-185 | Every event of every goroutine, with any number of sessions and goroutines, keeps the whole invariant. |
| LifecycleSafety.RunKeeps | control-plane/internal/session/host.go:53-172 | The invariant holds in every state of every run of Host, Manager, launcher, pool and guests. |
| LifecycleTheorems.AtMostOnce | control-plane/internal/session/host.go:118-172 | In every interleaving what was done to a session is a prefix of the one teardown sequence, done was closed at most once, and the hook was called at most once and only for a session that left the Host, with the hook registered then. |
| LifecycleTheorems.ExactlyOnce | control-plane/internal/session/manager.go:224-245 | Once no goroutine has it to do, a session outside the Manager had the whole teardown exactly once, and the hook was called exactly when it left the Host with a hook registered. |
| LifecycleTheorems.TornDownInOrder | control-plane/internal/session/manager.go:234-242 | In every state of every run each teardown action was done at most once, and the channel is closed before the VM is stopped, the VM stopped before its TAP device is deleted, that before the address is released, that before the directory is removed; once nobody tears down a session that left the Manager, all five were done. |
| LifecycleBuild.BuiltInOrder | control-plane/internal/session/manager.go:88-171 | In every run a session that reached the Manager had the six commands of its Create in order; one whose Create failed had some of the first five, and once nobody works on it what they took was given back in reverse, ending with the address. |
| LifecycleBuild.PlacedWereReady | control-plane/cmd/microvm-terminal/main.go:186-195 | In every run a session in the Host, in the pool or dropped had its handshake first. |
| LifecycleBuild.EveryVmIsWaitedFor | control-plane/internal/session/manager.go:176-181 | In every run some goroutine waits for the process of every VM in the Manager, is about to, or is about to destroy it. |
| LifecycleBuild.DeleteRemoves | control-plane/internal/session/host.go:148-172 | In every run a call of Host.Destroy for a session in the Host has taken it out for good once it has ended; the Manager has it only while somebody else is about to destroy it. |
| LifecycleBuild.ShutdownRemoves | control-plane/internal/session/manager.go:224-245 | In every run a call of Manager.Destroy for a session in the Manager has taken it out for good once it has ended. |
| LifecycleTheorems.NoDeadCounted | control-plane/internal/session/host.go:112-137 | A session in the Host map is in the Manager map, or in its one teardown, or has done closed with a watcher (or its starter) pending. |
| LifecycleTheorems.NeverReturns | control-plane/internal/session/manager.go:169-181 | Over any stretch of any run a session enters each map at most once and never comes back after it left. |
| LifecycleTheorems.AddressConservation | control-plane/internal/session/manager.go:83-171 | In every state the allocator's in-use set is exactly the disjoint union of the addresses of sessions being created or unwound, in the Manager, and in teardown. |
| LifecycleTheorems.MapsAgree | control-plane/internal/session/host.go:139-172 | With nothing pending, the Host map is contained in the Manager map, every VM of the Manager is in the Host, in the pool or dropped by CreateWarm, and exactly the addresses of the Manager's sessions are in use. |
| LifecycleTheorems.QuietHostIsManager | control-plane/internal/session/host.go:112-172 | With nothing pending, Host and Manager list the same sessions exactly when the Manager runs none that waits in the pool or was dropped. |
| LifecycleTheorems.HookRegistered | control-plane/internal/session/host.go:47-51 | Between a state with a session in the Host and a later one without it lies the step at which it left, and the hook it is reported to is the one registered in that state. |
| LifecycleTheorems.HookChanges | control-plane/internal/session/host.go:47-51 | The registered hook is the one OnGone was given last; no other event changes it. |
| LifecycleTheorems.FewSessions | control-plane/internal/session/manager.go:76-86 | In every run no more sessions are ever made than the block has addresses, and none under a limit of zero or less. |
| LifecycleDrop.DroppedExactly | control-plane/internal/session/host.go:75-94 | A step drops a session exactly when it is the insert of CreateWarm and the Host is full. |
| LifecycleDrop.DropNeedsRoom | control-plane/internal/session/host.go:75-94 | In every run, once a session was dropped there are more sessions than the limit of the Host. |
| LifecycleDrop.DropRun | control-plane/internal/session/host.go:75-94 | For every configuration that admits a VM and has an address more than the limit, a run in which creating calls never overlap ends with a dropped VM that runs and with nothing left to do but leaving. |
| LifecycleDrop.WindDown | control-plane/internal/session/host.go:118-172 | From such a state the system comes to rest, every goroutine having ended or waiting for a VM that runs, and the dropped VM still runs. |
| LifecycleDrop.StrandedIff | control-plane/internal/session/host.go:75-94 | In every configuration some run comes to rest with a dropped VM running outside the Host exactly when the Manager admits a VM and the block has more addresses than the limit of the Host; overlapping calls are not needed. |
| LifecycleRest.ComesToRest | control-plane/internal/session/host.go:118-172 | Every run can be continued, by steps of its own goroutines alone and even if every command fails, to a state in which nothing is left to do, so what is proved of a system at rest applies after every run. |
| LifecycleTheorems.WarmAccounting | control-plane/internal/session/warmpool.go:44-118 | In every run of the whole system, tokens queued or skipped, builds running or failed and VMs ready never exceed target plus misses, no VM is ready twice, and none is ready and in the Host at once. |
| LifecycleWarm.WorkAttained | control-plane/internal/session/warmpool.go:60-101 | In every configuration and for every number of misses some run has target plus misses builds running at once. |
| LifecycleWarm.WorkKeptIff | control-plane/internal/session/warmpool.go:44-118 | In every configuration VMs ready plus builds running stay within n in all runs with at most m misses exactly when n is at least target plus m; so the target is kept in all of them exactly when m is 0. |
| LifecycleWarm.StopIsFinal | control-plane/internal/session/warmpool.go:55-104 | In every run, once Stop has taken effect no further build is started. |
| LifecyclePool.HandedOutOnce | control-plane/internal/session/warmpool.go:60-79 | A VM that has left the warm pool never enters it again, so it is handed out at most once. |
| LifecyclePool.FollowsDwindles | control-plane/internal/session/warmpool.go:106-118 | Every step keeps or lowers the number of goroutines that can still bring an existing session into the pool, and the pool gains it only from one of them. |
| LifecycleCapacity.HostLenIsSize | control-plane/internal/session/host.go:174-178 | The counted length is the size of the Host map. |
| LifecycleCapacity.MgrLenIsSize | control-plane/internal/session/manager.go:262-266 | The counted length is the size of the Manager map. |
| LifecycleCapacity.HostOvershoot | control-plane/internal/session/host.go:53-94 | With at most k creating calls in progress at any moment, live sessions plus calls past the check never exceed the limit by more than k - 1. |
| LifecycleCapacity.MgrOvershoot | control-plane/internal/session/manager.go:74-81 | The same for the Manager's limit, from its check to its insert. |
| LifecycleOvershoot.HostAttained | control-plane/internal/session/host.go:53-71 | For every configuration that admits a VM and every k there are addresses for, a run with at most k calls in progress attains limit - 1 + k sessions in the Host, whichever limit is lower. |
| LifecycleOvershoot.MgrAttained | control-plane/internal/session/manager.go:74-81 | The same for the Manager. |
| LifecycleOvershoot.HostLimitIff | control-plane/internal/session/host.go:53-71 | In every configuration the limit of the Host is kept in all runs with at most k creating calls in progress exactly when k is at most 1, or no VM is admitted, or the block has no more addresses than the limit. |
| LifecycleOvershoot.MgrLimitIff | control-plane/internal/session/manager.go:76-81 | The same for the limit of the Manager. |
| Sessions.Latch.Close | control-plane/internal/session/session.go:244-249 | The channel is closed afterwards, and was closed by this call only if it was open. |
| Sessions.Session.constructor | control-plane/internal/session/manager.go:151-168 | A new session is not done, has no client, no guest and no size, and is idle since its creation. |
| Sessions.Session.MarkReady | control-plane/internal/session/session.go:78-86 | The first call fixes the ready time and closes the ready channel; however often it is called the channel is closed once. |
| Sessions.Session.SendToGuest | control-plane/internal/session/session.go:131-145 | The frame goes to the present connection, or the missing guest or the failed write is reported and nothing is written. |
| Sessions.Session.Handshake | control-plane/internal/session/vsock_listener.go:73-102 | Before its read loop the handler of a valid hello has stored its connection, marked the session ready and written the stored size, if any, to that very connection; a rejected hello leaves guest and readiness as they were and its connection refused. State and protocol model stay in step. |
| Sessions.Session.HangUp | control-plane/internal/session/vsock_listener.go:90-91 | The deferred clear removes whatever connection is stored, which the protocol model does in the same step. |
| Sessions.Session.Resize | control-plane/internal/session/session.go:151-163 | A size with no extent is refused and changes nothing; any other is stored, and written to the guest if there is one; the error is that of the write, and a missing guest is none. State and protocol model stay in step. |
| Sessions.Session.Attach | control-plane/internal/session/session.go:180-184 | One more client, told apart from all earlier ones. |
| Sessions.Session.Detach | control-plane/internal/session/session.go:185-194 | The first detach of a client counts, a second changes nothing, and the detach of the last client stamps the idle time. |
| Sessions.Session.IdleSince | control-plane/internal/session/session.go:207-220 | None while a client is attached, else the last detach, else the ready time, else the creation time. |
| Host.Host.constructor | control-plane/internal/session/host.go:32-43 | An empty host; a limit of zero or less becomes 3. |
| Host.Host.Create | control-plane/internal/session/host.go:53-73 | Calls that do not overlap never exceed the limit; at capacity nothing is launched; a failed launch leaves Host and Manager maps as they were and the machine as the failure says; a session that is made is in both maps and watched. |
| Host.Host.CreateWarm | control-plane/internal/session/host.go:75-94 | As Create, for a VM taken from the pool first; at capacity that VM is in no map of the Host while the Manager keeps it. |
| Host.Host.Watch | control-plane/internal/session/host.go:123-136 | Removes the entry only if it is this very session, and calls the hook only then. |
| Host.Host.Destroy | control-plane/internal/session/host.go:148-172 | Host and Manager lose exactly that session, its done channel is closed, what it held is given back but for what failing commands were to remove, and the hook is called once; an unknown id changes nothing. |
| Host.Host.ReapOne | control-plane/internal/session/host.go:195-206 | Destroys the session exactly when it has been idle for the timeout. |
| Host.Host.ReapIdle | control-plane/internal/session/host.go:190-208 | Without interference exactly the sessions idle for the timeout are removed from Host and Manager and returned; a timeout of zero or less removes none. |
| Manager.NothingLeftIff | control-plane/internal/session/manager.go:88-149 | A failed Create leaves nothing behind exactly when CreateTAP did not fail after making the device and no command that had something to give back failed; with working releases it leaves that device and nothing else. |
| Manager.UnchangedIff | control-plane/internal/session/manager.go:88-149 | What is taken from the machine is as before exactly when nothing is left behind. |
| Manager.HalfMadeTapStays | control-plane/internal/firecracker/network.go:55-70 | A CreateTAP whose second command fails leaves its TAP device, and only that, on the machine. |
| Manager.CleanLaunchIff | control-plane/cmd/microvm-terminal/main.go:182-196 | With working releases a failed launch, the boot timeout included, leaves nothing behind exactly when CreateTAP did not fail half way. |
| Manager.TimeoutLeaves | control-plane/cmd/microvm-terminal/main.go:188-194 | A session destroyed at the boot timeout leaves exactly what the failing releases were to remove. |
| Manager.NewLease | control-plane/internal/session/manager.go:83-86 | A new lease needs nothing that another session holds, and adds exactly its own needs. |
| Manager.LeaseEnds | control-plane/internal/session/manager.go:238-241 | Without a session the others need exactly what all needed less what was its own. |
| Manager.BooksAtEnd | control-plane/internal/session/manager.go:224-245 | When a session ends the books stay in order, and what belongs to nobody grows by exactly what failing releases were to remove. |
| Manager.Manager.constructor | control-plane/internal/session/manager.go:44-69 | A manager without sessions holds nothing of the machine. |
| Manager.Manager.MakeTap | control-plane/internal/firecracker/network.go:55-70 | The device exists once the first of the three commands has succeeded, whatever the others do. |
| Manager.Manager.Acquire | control-plane/internal/session/manager.go:88-149 | All commands after Alloc succeed and everything is taken, or one fails and exactly what its exit leaves behind is. |
| Manager.Manager.Cleanup | control-plane/internal/session/manager.go:276-280 | Gives back directory, TAP device and address, but for what failing commands were to remove. |
| Manager.Manager.Create | control-plane/internal/session/manager.go:74-185 | Fails exactly at capacity, without an address, or when a command fails; then the map is as it was and the machine gains exactly what is left behind, so that it is as it was if and only if that is nothing. Else map and machine gain the session and its needs. |
| Manager.Manager.Destroy | control-plane/internal/session/manager.go:224-245 | The map loses exactly that session, its done channel is closed, and the machine loses what it held but for what failing commands were to remove; an unknown id is reported. |
| Manager.Manager.Launch | control-plane/cmd/microvm-terminal/main.go:182-196 | As Create, and a session whose guest misses the boot timeout is destroyed; a failed launch leaves the map as it was and on the machine exactly what the failing commands say. |
| Manager.Manager.Shutdown | control-plane/internal/session/manager.go:248-259 | No session and no address is left; what is left on the machine is what was leaked before and what failing releases were to remove, hence with working releases exactly what was leaked before. |
| Netalloc.MaskedIsBlock | control-plane/internal/netalloc/netalloc.go:28-44 | Prefix containment, which compares leading bits, is membership in one interval of addresses. |
| Netalloc.AllocStep | control-plane/internal/netalloc/netalloc.go:54-85 | Alloc succeeds exactly while fewer than Capacity addresses were issued, and then issues the next one, used by nobody and not the bridge's; the invariant is kept. |
| Netalloc.AfterValid | control-plane/internal/netalloc/netalloc.go:54-92 | The invariant holds after every history of Alloc and Release. |
| Netalloc.Lifetime | control-plane/internal/netalloc/netalloc.go:54-92 | Over any history the k-th lease is the k-th address after the bridge's, so addresses only increase and are never reused, and exactly min(calls, Capacity) calls succeed. |
| Netalloc.SameMac | control-plane/internal/netalloc/netalloc.go:73-75 | Two addresses share a MAC exactly when their low 16 bits agree. |
| Netalloc.MacText | control-plane/internal/netalloc/netalloc.go:73-75 | The third and the fourth octet of the address are read back from their places in the MAC. |
| Netalloc.MacsDistinctIff | control-plane/internal/netalloc/netalloc.go:73-75 | MACs never repeat in any lifetime exactly for prefixes of /16 or longer. |
| Netalloc.CidsNeverWrapIff | control-plane/internal/netalloc/netalloc.go:80-81 | The 32-bit CID counts up from 100 without wrapping in every lifetime exactly for prefixes of /1 or longer. |
| Netalloc.TapsDistinct | control-plane/internal/netalloc/netalloc.go:77-78 | TAP names are pairwise distinct in every lifetime. |
| Netalloc.ReleasedIsLost | control-plane/internal/netalloc/netalloc.go:54-92 | In every block, after every address was issued and any one of them released, that address is free and Alloc fails. |
| Netalloc.ReturnsToPoolIff | control-plane/internal/netalloc/netalloc.go:54-92 | Alloc succeeds exactly while some address is free, in all histories of at most m calls of Alloc, if and only if m is less than the capacity or the block has nothing to hand out. |
| Netalloc.BroadcastIssuedIff | control-plane/internal/netalloc/netalloc.go:61-70 | The last address of the block is handed out in exactly the histories that call Alloc at least as often as the block has addresses to hand out. |
| Netalloc.Allocator.constructor | control-plane/internal/netalloc/netalloc.go:28-44 | A new allocator is in its initial state. |
| Netalloc.Allocator.Alloc | control-plane/internal/netalloc/netalloc.go:54-85 | The bounded search ends in its first round: both skip branches and the exhaustion exit are dead, and state and result are those of the one-step function. |
| Netalloc.Allocator.Release | control-plane/internal/netalloc/netalloc.go:88-92 | Only the in-use set changes, by that address. |
| WarmPool.SendBalanced | control-plane/internal/session/warmpool.go:73-78 | The refill token keeps the books balanced, whether queued or lost. |
| WarmPool.PopBalanced | control-plane/internal/session/warmpool.go:60-73 | A hit or a miss keeps the books balanced. |
| WarmPool.TokenBalanced | control-plane/internal/session/warmpool.go:44-104 | Seeding, taking a token, skipping it and starting a build keep the books balanced. |
| WarmPool.BuildBalanced | control-plane/internal/session/warmpool.go:106-118 | A failed and a finished build keep the books balanced. |
| WarmPool.BalancedBound | control-plane/internal/session/warmpool.go:44-118 | Balanced books bound tokens, builds and ready VMs by target plus misses; without misses ready plus building never exceeds the target. |
| WarmPool.Pool.constructor | control-plane/internal/session/warmpool.go:29-41 | An empty pool with balanced books; a target of zero or less becomes 2. |
| WarmPool.Pool.TrySend | control-plane/internal/session/warmpool.go:74-77 | The token is queued while the channel has room and lost otherwise. |
| WarmPool.Pool.SeedAll | control-plane/internal/session/warmpool.go:47-52 | Seeding alone queues exactly target tokens and loses none. |
| WarmPool.Pool.PopReady | control-plane/internal/session/warmpool.go:61-73 | Takes the oldest ready VM, or counts a miss. |
| WarmPool.Pool.AcquireWarm | control-plane/internal/session/warmpool.go:60-79 | Pop and token together keep the books balanced and return the oldest ready VM. |
| WarmPool.Pool.LoopRound | control-plane/internal/session/warmpool.go:93-101 | A token starts a build exactly when fewer than target VMs are ready. |
| Geometry.ReplayCoversDeferred | control-plane/internal/session/vsock_listener.go:90-102 | In every interleaving, a Resize that found no guest is seen by the next stored connection: its replay reads that size or a later one. |
| Geometry.RejectedNeverServes | control-plane/internal/session/vsock_listener.go:79-86 | In every later state of every run a connection whose hello was rejected is not stored, is not the guest and has been sent nothing. |
| Geometry.ReadyNeedsHello | control-plane/internal/session/vsock_listener.go:83-92 | In every run the session is ready, and a connection is the guest, only after a valid hello; for the guest, a hello of its own. |
| Geometry.DeferredIsReplayed | control-plane/internal/session/vsock_listener.go:90-102 | With one guest connection at a time, that connection has received that size or a later one once it serves. |
| Geometry.HandshakeDelivers | control-plane/internal/session/vsock_listener.go:90-102 | With nothing between its steps the handler stores its connection and the stored size goes to that connection, once. |
| Geometry.WritesGoTo | control-plane/internal/session/session.go:131-163 | A Resize and a replay write to the connection they read as the guest; no step adds anything else to what a connection received. |
| Geometry.DeliveredAlone | control-plane/internal/session/session.go:151-163 | With one guest connection at a time and nobody sending, every serving guest has received the newest size. |
| Geometry.CurrentInOrder | control-plane/internal/session/session.go:151-163 | With one sender at a time as well, the newest size is the last one received. |
| Geometry.WipedConnection | control-plane/internal/session/vsock_listener.go:90-91 | A run in which an older connection's clear removes a newer one, so that a later size never arrives. |
| Geometry.StaleReplay | control-plane/internal/session/vsock_listener.go:98-102 | A run in which the replay of an old size overtakes a newer one, with one connection throughout. |
| Geometry.DeliveredIff | control-plane/internal/session/vsock_listener.go:73-117 | Delivery of the newest size holds in all runs with at most a overlapping handlers and s overlapping senders exactly when a is at most 1 or s is 0. |
| Geometry.CurrentIff | control-plane/internal/session/session.go:131-163 | In the same runs the newest size is the last one received exactly when a and s are both at most 1, or one of them is 0. |
| Serial.LastOfLast | control-plane/internal/session/serial.go:36-42 | Trimming after each write gives the tail of everything written. |
| Serial.CopyIn | control-plane/internal/session/serial.go:37-37 | Writes the chunk after the bytes kept and leaves those alone. |
| Serial.ShiftDown | control-plane/internal/session/serial.go:38-42 | Copying the tail down over its own array, low indices first, does not corrupt it. |
| Serial.Ring.constructor | control-plane/internal/session/serial.go:21-28 | An empty ring. |
| Serial.Ring.Write | control-plane/internal/session/serial.go:37-37 | Appends the chunk, in a larger array when the present one is full. |
| Serial.Ring.KeepTail | control-plane/internal/session/serial.go:38-42 | Exactly the tail remains, although it is copied over itself. |
| Serial.Ring.Append | control-plane/internal/session/serial.go:35-43 | After each chunk the ring is the last min(limit, total) bytes drained. |
| Serial.Ring.Snapshot | control-plane/internal/session/serial.go:67-68 | The replay is that tail. |
| SerialSeam.StepKeeps | control-plane/internal/session/serial.go:30-80 | Every drain, send, attach, cleanup and receive step keeps the ring and what each channel was sent in agreement with the source. |
| SerialSeam.RunKeeps | control-plane/internal/session/serial.go:30-80 | That agreement holds in every state of every run. |
| SerialSeam.RingIsTail | control-plane/internal/session/serial.go:35-44 | The ring is the last min(limit, total) bytes in every state of every run. |
| SerialSeam.SeamIsContiguous | control-plane/internal/session/serial.go:65-72 | For an attach at any point, with nothing dropped, replay plus everything sent is one contiguous stretch of the source, up to the last chunk drained while the attach is the subscriber. |
| SerialSeam.QueueIsInOrder | control-plane/internal/session/serial.go:45-54 | With drops, the channel carries whole chunks of the source in order, each at most once. |
| SerialSeam.DropNeedsBacklog | control-plane/internal/session/serial.go:45-54 | In every run a chunk is dropped only when the client has 64 chunks yet to take. |
| SerialSeam.NeverOverfull | control-plane/internal/session/serial.go:65-72 | In every run no client has more than 64 chunks waiting. |
| SerialSeam.UnhookCrashIff | control-plane/internal/session/serial.go:72-79 | After the locked part of a cleanup some continuation of the run sends on the closed channel exactly when a chunk for it is under way at that moment. |
| SerialSeam.CloseCrashesIff | control-plane/internal/session/serial.go:72-79 | After the close some continuation of the run sends on the closed channel exactly when a chunk for it is still under way. |
| SerialSeam.CarefulRunsNeverCrash | control-plane/internal/session/serial.go:45-79 | A run whose closes find nothing under way never sends on a closed channel. |
| SerialSeam.CrashingRun | control-plane/internal/session/serial.go:43-78 | A four-step run in which the send meets the closed channel. |
| Quota.RefundUndoesReserve | proxy/internal/quota/quota.go:147-154 | A refund right after a reservation restores the bucket, up to the roll of the window. |
| Quota.RetryAfterSuffices | proxy/internal/quota/quota.go:112-118 | After waiting the reported time the rate limit does not refuse again; for a window that began in the past the time is between a second and a minute. |
| Quota.RefusalNames | proxy/internal/quota/quota.go:112-127 | A reservation is granted exactly when no cap is reached in the present window; a refusal carries the first cap reached, in the order rate, requests, input tokens, output tokens, and no wait unless it is the rate. |
| Quota.RetryAfterIsLeast | proxy/internal/quota/quota.go:112-118 | Among the waits of a second or more, the reported one is the least after which the rate limit does not refuse again. |
| Quota.TallyRun | proxy/internal/quota/quota.go:102-154 | The counting argument over every history of calls on one session, with its invariant relating reservations in a minute to the window. |
| Quota.AnyMinute | proxy/internal/quota/quota.go:102-154 | In any half-open minute, aligned or not, at most 2 * MaxRequestsPerMinute reservations succeed, plus the slots refunded in it. |
| Quota.BurstGranted | proxy/internal/quota/quota.go:108-131 | A burst of reservations by a session below its caps is granted as far as the window, rolled if due, has room. |
| Quota.TwiceIsAttained | proxy/internal/quota/quota.go:102-132 | For all limits that admit anything some history attains the factor two without refunds. |
| Quota.AnyMinuteIff | proxy/internal/quota/quota.go:102-132 | For all limits, at most n reservations succeed in every minute without refunds exactly when n is at least 2 * MaxRequestsPerMinute or the caps admit nothing. |
| Quota.OnlyOneWindowIff | proxy/internal/quota/quota.go:102-132 | After any history that ends before a and leaves the session below its caps, the minute from a admits no more than MaxRequestsPerMinute reservations exactly when the window is over at a or full. |
| Quota.Manager.constructor | proxy/internal/quota/quota.go:83-92 | Without a positive input-token cap all defaults apply. |
| Quota.Manager.Get | proxy/internal/quota/quota.go:174-181 | The session's bucket, made at the present time if there was none. |
| Quota.Manager.TryReserve | proxy/internal/quota/quota.go:102-132 | The verdict and the new bucket are those of the specification; no other session is touched. |
| Quota.Manager.CommitUsage | proxy/internal/quota/quota.go:136-143 | Exactly that session is charged. |
| Quota.Manager.RefundSlot | proxy/internal/quota/quota.go:147-154 | Exactly that session gets a slot back, if its window holds one. |
| Quota.Manager.Reset | proxy/internal/quota/quota.go:165-169 | Whatever the session was charged, its next reservation is granted exactly when a fresh one would be; every other session has the bucket it had. |
| Forward.SettledOnce | proxy/internal/server/server.go:162-237 | On every path and in every interleaving a granted reservation is open until it is settled by exactly one Commit or one Refund, and a refused one by none. |
| Forward.AdvanceCharges | proxy/internal/server/server.go:230-248 | What one step charges a session is what the request then holds or writes for the audit. |
| Forward.RunLedger | proxy/internal/server/server.go:230-248 | In every state committed tokens are the logged tokens plus those in records not yet written, per session. |
| Forward.CostOfTokens | proxy/internal/server/stream.go:184-188 | The summed cost of a log of priced records is 3 micros for each input token and 15 for each output token. |
| Forward.LogMatchesLedger | proxy/internal/server/server.go:230-248 | Once its records are written, the tokens summed over a session's records are its committed usage and the summed cost is the cost of that usage. |
| Forward.AdvanceUnder | proxy/internal/quota/quota.go:119-143 | One step keeps every cap's bound, counting what open reservations may still add. |
| Forward.CapOvershoot | proxy/internal/server/server.go:162-237 | With at most k open reservations of a session and at most t tokens of each kind in its responses, its requests pass the cap by at most k - 1, its tokens by less than k * t, and no request is charged more than t, in every state of every run. |
| Forward.NeverCharged | proxy/internal/quota/quota.go:102-132 | In every run under a limit that is not positive nothing is ever reserved or charged. |
| ForwardOvershoot.CapAttained | proxy/internal/quota/quota.go:119-143 | For all positive limits and every k, t and kind of token one run with at most k open reservations ends with MaxRequests - 1 + k requests and the smaller of (MaxRequests - 1 + k) * t and cap - 1 + k * t tokens of that kind. |
| ForwardOvershoot.RequestCapIff | proxy/internal/quota/quota.go:97-132 | For all limits the request cap is kept in every run with at most k open reservations of a session exactly when k is at most 1; under a limit that is not positive, unless the cap is negative. |
| ForwardOvershoot.TokenCapIff | proxy/internal/quota/quota.go:119-143 | For all limits the cap on tokens of either kind is kept in every such run with at most t of them in a response exactly when k * t is at most 1 or (MaxRequests - 1 + k) * t is within the cap; under a limit that is not positive, unless the cap is negative. |
| Forward.AloneSettles | proxy/internal/server/server.go:162-248 | One request run alone: which settlement, which bucket and which audit record each fate leads to. |
| Forward.Sink.constructor | proxy/internal/audit/audit.go:38-38 | An empty log. |
| Forward.Sink.Write | proxy/internal/audit/audit.go:41-46 | The log gains the record at its end. |
| Forward.HandleForward | proxy/internal/server/server.go:137-248 | Without a token, or with an unknown one, the answer is 401, for a revoked key 503, and nothing is reserved or logged. Otherwise the effect on quota and log is that of the steps of the request run one after the other, its reservation is settled, the answer is 429, 400, 500, 502 or that of the upstream as the request fared, and the audit record carries it. |
| Stream.Max64 | proxy/internal/server/stream.go:150-158 | The largest argument, and 0 when none is positive. |
| Stream.Largest | proxy/internal/server/stream.go:150-158 | An upper bound of the arguments that is 0 or one of them. |
| Stream.LineEndIsFirst | proxy/internal/server/stream.go:40-40 | A line holds a newline as its last byte only, and lacks it only at the end of the body. |
| Stream.LinesJoin | proxy/internal/server/stream.go:39-73 | The lines of a body joined give the body. |
| Stream.BestIsLeast | proxy/internal/server/stream.go:136-148 | The usage of a stream is the least that covers every data line, for each count. |
| Stream.ParseCharges | proxy/internal/server/stream.go:99-131 | From one payload the request count is at least every input count found and 0 or one of them, the response count likewise for the output counts, and both are 0 where nothing is found. |
| Stream.BestCharges | proxy/internal/server/stream.go:136-148 | Of a stream the two counts are the highest input count and the highest output count found in the payloads of its data lines. |
| Stream.BestIsSumIff | proxy/internal/server/stream.go:133-148 | The response count of a stream is the sum over its lines exactly when at most one line reports response tokens. |
| Stream.SecondDeltaLost | proxy/internal/server/stream.go:133-148 | Two lines that report one response token each are charged as one. |
| Stream.BestOfSameLines | proxy/internal/server/stream.go:136-148 | Streams with the same set of lines have the same usage: order and repetition do not matter. |
| Stream.SentUsageIsPrefix | proxy/internal/server/stream.go:50-61 | A client that stops reading is charged for the whole lines it was sent. |
| Stream.SentAll | proxy/internal/server/stream.go:33-74 | A client that reads everything is charged the maximum over all data lines. |
| Stream.LineReader.constructor | proxy/internal/server/stream.go:35-35 | The whole body is still to be read. |
| Stream.LineReader.ReadBytes | proxy/internal/server/stream.go:40-40 | The first line of what is left, whatever the chunks; at the end of the body, the rest. |
| Stream.SendLine | proxy/internal/server/stream.go:50-58 | Sends the line; a blank line is flushed. |
| Stream.NoteUsage | proxy/internal/server/stream.go:59-62 | Only a data line can raise the usage, to the componentwise maximum. |
| Stream.Capture | proxy/internal/server/stream.go:42-49 | The capture stays the first 32 KiB of what was read. |
| Stream.ForwardLine | proxy/internal/server/stream.go:41-63 | One line is captured, sent and read for usage; or the connection broke, exactly what fits was sent and the line that did not fit is captured as well. |
| Stream.StreamSSE | proxy/internal/server/stream.go:33-74 | For every body, chunking and point of failure: bytes out are the bytes in, as far as the client takes them; the capture is the first 32 KiB of the lines read, the one that failed included; the usage is the highest input count and the highest output count found in the data lines sent; the error says which side failed; the end is flushed. |
| Stream.LimitedWriter.constructor | proxy/internal/server/stream.go:161-164 | Nothing kept, the whole allowance left. |
| Stream.LimitedWriter.Write | proxy/internal/server/stream.go:166-178 | Keeps exactly what the allowance admits and reports all bytes written. |
| Stream.CopyChunk | proxy/internal/server/stream.go:81-82 | A chunk is in the tee before it is sent; the copy goes on exactly when the whole chunk was taken. |
| Stream.StreamJSON | proxy/internal/server/stream.go:78-92 | Bytes out are bytes in, as far as the client takes them; the tee is the first 1 MiB of the chunks read, the one that failed included; the usage is the highest input count and the highest output count found in the tee on success and is zero on failure. |
| Reaper.RunCounts | control-plane/internal/session/session.go:180-195 | In every run the attached count is the number of clients attached, and the last detach is not in the future. |
| Reaper.RunSince | control-plane/internal/session/session.go:180-220 | Between any two states of a run: clients that left stay gone, a removed session stays removed, and a session that had a client and has none was last detached no earlier. |
| Reaper.ReapIsSound | control-plane/internal/session/host.go:190-208 | A session the reaper decides to destroy had no client in any state up to the check whose clock is later than now - timeout. |
| Reaper.LateClients | control-plane/internal/session/host.go:195-206 | A client attached when the session goes down attached after the check. |
| Reaper.IdleLongIff | control-plane/internal/session/session.go:207-220 | The test of the reaper holds exactly when no client is attached and the last one left by now - timeout, or there never was one and the guest was ready by then, or it was never ready and the session was created by then. |
| Reaper.ReapIsComplete | control-plane/internal/session/host.go:190-208 | Every session of the snapshot that the sweep has passed was looked at in one step; it is gone and reported if it had been left alone for the timeout then, in that sense, and is not reported if it had not. |
| Reaper.ReapedWereIdle | control-plane/internal/session/host.go:195-206 | Only sessions that a check found idle for the timeout are destroyed and reported. |
| LoginLimiter.TokensInRange | control-plane/internal/auth/auth.go:133-150 | Tokens stay in [0, 5]. |
| LoginLimiter.Spent | control-plane/internal/auth/auth.go:142-149 | Tokens left plus attempts admitted since a never exceed 5 plus what was earned since a. |
| LoginLimiter.AnyInterval | control-plane/internal/auth/auth.go:133-150 | In every run at most 5 + (b - a) / 12 attempts of one address are admitted in any closed interval [a, b]. |
| LoginLimiter.RampAdmitted | control-plane/internal/auth/auth.go:133-150 | Five attempts at once and one every 12 seconds are all admitted. |
| LoginLimiter.LimitIff | control-plane/internal/auth/auth.go:132-150 | At most n attempts in every closed interval of length w, in every run, holds exactly when 5 + w / 12 < n + 1. |
| LoginLimiter.FivePerMinuteFails | control-plane/internal/auth/auth.go:132-132 | Five attempts in 60 s is not what the bucket enforces; ten is the exact bound for a closed minute. |
| LoginLimiter.WaitingRefills | control-plane/internal/auth/auth.go:142-149 | Whatever an address tried before, after 12 * k seconds without an attempt k attempts at once are admitted, up to five. |
| LoginLimiter.KeptSorted | control-plane/internal/auth/auth.go:133-150 | The attempts admitted are again a run. |
| LoginLimiter.DenialsDoNotMatter | control-plane/internal/auth/auth.go:133-150 | With the denied attempts deleted the bucket stands as before at every later time, so every later decision is the same. |
| LoginLimiter.KeptAreAdmitted | control-plane/internal/auth/auth.go:133-150 | With the denied attempts deleted every attempt left is admitted. |
| LoginLimiter.Gate.constructor | control-plane/internal/auth/auth.go:85-92 | No address is known. |
| LoginLimiter.Gate.Allow | control-plane/internal/auth/auth.go:133-150 | Decision and new bucket are those of the specification; no other address is touched. |
| Text.IntRoundTrip | control-plane/internal/auth/auth.go:195-195 | Every 64-bit integer is read back from its decimal form. |
| Text.HexRoundTrip | control-plane/internal/auth/auth.go:191-191 | Every byte string is read back from its hex form. |
| Text.HexDecodeIff | control-plane/internal/auth/auth.go:191-191 | Decoding accepts exactly what encoding gives, in lower or upper case. |
| Text.ParseIff | control-plane/internal/auth/auth.go:195-195 | A text is read as v exactly when it is an optional sign and at least one digit that denote v, and v has 64 bits. |
| Text.MostSignificantFirst | control-plane/internal/auth/auth.go:191-195 | The most significant digit comes first, in lower case. |
| Slug.SlugifyGivesSlug | control-plane/internal/auth/auth.go:117-125 | Every result is at most 32 characters over [a-z0-9-] with no edge or doubled dash. |
| Slug.FixedIffSlug | control-plane/internal/auth/auth.go:117-125 | The fixed points are exactly those strings; slugifying is idempotent. |
| Slug.SlugKeepsLetters | control-plane/internal/auth/auth.go:117-125 | Letters and digits of the slug are those of the lower-case name in order, a prefix of them, and all of them unless the name is too long. |
| Slug.SlugIsWords | control-plane/internal/auth/auth.go:117-125 | The slug is the words of the lower-case name, its longest runs of letters and digits, with one dash between each two; of a longer one the first 32 characters, without a dash at the end. |
| Slug.EmptyIff | control-plane/internal/auth/auth.go:115-125 | The slug is empty exactly when the lower-case name has no letter or digit. |
| Cookie.SplitJoined | control-plane/internal/auth/auth.go:184-184 | Three parts joined by bars are split into the same parts when the first two hold no bar. |
| Cookie.SplitIsParts | control-plane/internal/auth/auth.go:184-184 | What the split returns joins to the value, and its first two parts hold no bar. |
| Cookie.VerifyIff | control-plane/internal/auth/auth.go:183-203 | Verify names an owner exactly for the values made of a non-empty slug, an unexpired number and the hex form of their signature. |
| Cookie.RoundTrip | control-plane/internal/auth/auth.go:154-203 | For every name with a non-empty slug the cookie issued for it is read back as that slug up to its expiry. |
| Cookie.IssuedIff | control-plane/internal/auth/auth.go:154-203 | A cookie issued to any string at all is accepted exactly when the string is a non-empty slug and it has not expired. |
| Cookie.PayloadTells | control-plane/internal/auth/auth.go:154-161 | What is signed tells owner and expiry, so a signature is good for no other owner and no other time. |
| Keys.IndexMeans | proxy/internal/keys/keys.go:80-84 | The index holds exactly the ids of the pool, each at its last entry. |
| Keys.RunValid | proxy/internal/keys/keys.go:77-134 | The index agrees with the pool after any calls. |
| Keys.TokenIsStable | proxy/internal/keys/keys.go:85-87 | A token neither revoked nor assigned again keeps its key id through any calls. |
| Keys.ResolvesIff | proxy/internal/keys/keys.go:139-151 | It then resolves exactly when the latest pool holds that id, to the last entry with it, and otherwise reports the key as revoked. |
| Keys.HitsAreEven | proxy/internal/keys/keys.go:109-110 | Any m consecutive positions of a round of n fall on each slot floor(m/n) or ceil(m/n) times. |
| Keys.SlotsAreHits | proxy/internal/keys/keys.go:99-127 | Between rotations the slots assigned are those consecutive positions. |
| Keys.NextKey | proxy/internal/keys/keys.go:109-111 | Between rotations the next token maps to the key at position (rr + assignments) modulo the number of keys. |
| Keys.Fairness | proxy/internal/keys/keys.go:99-127 | Between rotations, of tokens assigned once and not revoked, every key holds the floor or the ceiling of its even share, whatever else is revoked meanwhile. |
| Keys.RevokedIsUnknown | proxy/internal/keys/keys.go:130-134 | A revoked token stays unknown until it is assigned again. |
| Keys.Pool.constructor | proxy/internal/keys/keys.go:65-72 | A pool of the given keys without tokens. |
| Keys.Pool.ReplaceAll | proxy/internal/keys/keys.go:77-88 | Keys and index are replaced; tokens and the round are kept. |
| Keys.Pool.MintSessionToken | proxy/internal/keys/keys.go:99-113 | The new token maps to the key at position rr modulo the number of keys, and no other token changes; an empty pool or a failing random source changes nothing. |
| Keys.Pool.RegisterSessionToken | proxy/internal/keys/keys.go:117-127 | The given token maps to the key at position rr modulo the number of keys, and no other token changes; an empty pool changes nothing. |
| Keys.Pool.RevokeSessionToken | proxy/internal/keys/keys.go:130-134 | The token is forgotten; the round is kept. |
| Keys.Pool.SecretForSession | proxy/internal/keys/keys.go:139-151 | Reads without changing: unknown token, key gone, or the secret and its id. |

## Left out

- Host.Destroy's error branch after Manager.Destroy: Manager.Destroy returns only nil or not-found, so the branch is dead.
- Session, Host, Manager and the guest connection handler under concurrency: the interleavings are modelled on values, so aliasing between goroutines beyond the locked regions is not; the classes are for calls one at a time.
- Host.Host.CreateWarm: takes what AcquireWarm gives as a parameter; the pool is WarmPool and Lifecycle.
- Manager.Manager.constructor: the detection of the upstream interface and the set-up of the bridge, which can fail before the manager exists, are not modelled.
- Sessions.Session.Handshake: the write of the replayed size succeeds; a failing write is modelled in Sessions.Session.Resize.
- Sessions without a manager (mock launcher, in-memory sessions): only the managed path is modelled.
- Failing release commands and a half-made TAP device in Lifecycle: there a teardown or undo action counts as done once it was called, as in the source, which ignores the errors, and a CreateTAP that fails as having made nothing; what such a failure leaves on the machine is in Manager.
- Rewriting a session id that is no UUID in the HTTP layer: ids are fixed.
- Stop on the warm pool while a build runs: the loop can stop at any time between tokens; builds in progress go on, as in the source.
- Forward.CapOvershoot: token sums are unbounded integers; wrap-around of int64 is not modelled, because the bound it proves stays below 2^63 for any realistic cap, number of open reservations and response size.
- Forward.HandleForward: the response headers and bodies, the Retry-After header and the count of requests in progress are not modelled; the bearer token is given, as session id.
- Writes to the SQL audit sink, which can fail: the log is the in-memory sink, whose writes cannot. Reading that log back is its field.
- Quota.Reset in runs: the window and ledger theorems are for a session that is not reset; the method itself is modelled.
- Keys.Pool.MintSessionToken: the random token may coincide with an earlier one, which then counts as assigned again; no freshness is claimed. The round counter is unbounded.
- LoginLimiter: float64 rounding is not modelled; buckets are never evicted, as in the source.
- Stream.Parse: JSON decoding, the test for a leading brace and trimming are one arbitrary function; the three places a usage object can sit are its result.
- The rotate endpoint's wait for requests in progress: it has a time limit and gives no guarantee to prove.
- HTTP routing, pages, WebSocket transport, the store, configuration, the Firecracker and jailer launch, network set-up and scripts: external effects or plumbing.
