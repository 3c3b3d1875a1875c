# GuardPipe: a verified model

GuardPipe scans repositories and running targets. This project models the parts of it that keep
shared state over long runs, that encode and decode, or whose promise spans several operations,
and proves what they promise for every input, every run and every interleaving.
`dafny verify dfyconfig.toml` checks everything.

| file | what it models |
|---|---|
| `Base64`, `CrlfText`, `Multipart`, `Mailer`, `MailWriter` | the e-mail builder: nested multipart bodies over base64 leaves, and an independent reader |
| `LiveScan`, `WindowCounter`, `JobQueue` | the Redis coordination layer: debouncer, hourly counter, two-list job queue |
| `DockerLogs` | the demultiplexer of Docker's log frames |
| `Scripts`, `SandboxJobs` | the Kubernetes runner: semaphore, created objects, deferred clean-ups |
| `Ipv4`, `Firewall` | the container firewall and the NetworkPolicy, packet by packet |
| `CloneBudget` | the byte budget that all writes of a clone share |
| `KeyRotation` | the Gemini key pool and its callers |
| `SonarPaging` | the page loops of the SonarQube client |
| `ScanPoller`, `TokenRefresh`, `AssistantTray` | three browser stores whose steps interleave at `await` |
| `FindingGroups` | grouping findings by rule |
| `Wrappers`, `Counting` | optional values and results; sizes of finite sets |

Two forms appear. Where the source is concurrent, each Redis command or script, each API call, and
each stretch of JavaScript between two `await`s is one atomic step of a state machine, and lemmas
quantify over all finite runs of any number of participants. Where the source changes things in
place, a class or a loop does the same and its contract is tied to the step function or to an
independent specification. The class methods beside a state machine are its steps, each taken on
its own; the job queue, the counter and the key pool also carry the run they are in as a ghost
field, so that what is proved of runs holds of the objects.

## What turned out not to hold

- `validate.isBlockedRange` is cited as the firewall's range list (`sandbox/sandbox.go:434` and `:475`).
  The two lists differ on 224/4 and on 0/8; `Firewall.ShellAndValidatorAgreeWhen` gives the exact set.
- "Bounds how many Job pods run at once" (`k8spentestsandbox/runner.go:83`): a slot is freed as soon as the
  deletion of its Job was asked for, and a Job lingers after that, for good when the request was refused and
  for its pod's grace period when it was accepted, since `deleteJob` propagates in the foreground
  (`runner.go:451`). The limit holds exactly when no Job lingers
  (`SandboxJobs.LimitHoldsExactlyWithoutLingering`); f lingering Jobs allow up to f Jobs too many, and that
  many are reached even when every request is accepted (`SandboxJobs.BoundIsReached`). A lingering Job can
  outlive its NetworkPolicy (`SandboxJobs.JobCanOutliveItsPolicy`).
- `Requeue` pushes whether or not its `LREM` removed anything, so a requeue that comes after the ack
  brings an acknowledged job back; and when its `LPUSH` fails, the job it removed is in neither list
  (`JobQueue.FailedPushLosesJob`). `JobQueue.NothingLostOrDuplicated` is the exact condition.
- "Two worker replicas never fire the same debounced scan" (`queue/livescan.go:38`) holds, but a replica can
  fire the next window of that key before its time, because a pop does not look at the fire time again.
  `LiveScan.EarlyExactlyAfterRearm` is the exact condition; `LiveScan.AnyWindowCanFireEarly` reaches it
  from an empty store for any two workers.
- "The counter expires `window` after its first increment" (`queue/livescan.go:113-114`): it expires `window`
  after the `EXPIRE`, which is later by the time between the two commands
  (`WindowCounter.DeadlineCountsFromExpire`).
- A counter whose `EXPIRE` failed never expires (`WindowCounter.FailedExpiryIsForever`), and any `EXPIRE`
  can fail (`WindowCounter.AnyExpiryCanFail`).
- "Until the whole pool has been tried" (`gemini/client.go:73`): a call that used up its attempts has tried
  every key exactly when no two of its sends lie a multiple of the pool size of advances apart
  (`KeyRotation.TriesEveryKeyExactlyWhen`). For every pool of two or more keys, two calls that find one key
  exhausted at the same time can make one of them skip a key (`KeyRotation.DoubleAdvanceSkipsAKey`).
- `announceFinished` can be called for a scan that is still running, because a listing is compared with one of
  another scope. The poller compares `user.orgId`; a listing belongs to the access token, which `switchOrg`
  and `switchProject` set first (`authStore.ts:137`, `:144`) and which can be one of several projects shared
  out of one organisation. `ScanPoller.WrongExactlyWhenScopesDiffer` says, when a listing arrives, whether it
  announces across scopes; `ScanPoller.MovesWithinOneOrganisationMislead` (a shared project left for
  another, or a user record that is late or never arrives) and `ScanPoller.LateListingMisleads` (a tick
  answered after a complete switch, recorded at `activeScansStore.ts:111` without the comparison of line
  101) are runs. `announceFinished` then fetches the scan and says nothing when that fails.
- `announceFinished` can be called twice for one scan: after a listing was heard, a scan can be announced
  without being listed again exactly when that listing holds it
  (`ScanPoller.AnnouncedAgainExactlyWhenListedAgain`), and an older listing heard late can hold it again
  (`ScanPoller.OverlapAnnouncesTwice`).
- A refresh that is itself answered `auth.token_expired`, as one with an expired refresh token is
  (`internal/modules/identity/service.go:331`), waits for its own promise for ever
  (`TokenRefresh.StuckForever`, `TokenRefresh.ResolvableExactlyWhenNotStuck`); it can happen to any refresh
  in flight (`TokenRefresh.AnyRefreshCanGetStuck`).
- "Asked before in this session: no request" (`assistantStore.ts:100`) fails for a session reopened while
  a request was in flight, which can be done for any finding (`AssistantTray.CanCloseWhileAsked`);
  `AssistantTray.OneAnswerExactlyWhenIdle` is the exact condition.
- The page loops need a list that stays fixed: `SonarPaging.ShrinkingListHidesItems` says which items are
  not returned when some of those already read go away.

## Assumptions

- Redis: a client always learns the outcome of its command; nothing is evicted; no process dies
  between two of its commands; a counter is expired once the clock has reached its deadline. Keys of
  equal fire time are listed in any order.
- Kubernetes: a failed create has created nothing, and a name is taken until its object is gone. ConfigMaps
  and NetworkPolicies go with the accepted request.
- Mail: boundaries are strings of lower-case hexadecimal digits, distinct and of equal length; the
  Q-encoded subject, the date, the message ID and the results of `mime.FormatMediaType` contain no
  line break. The multipart writer emits a part's headers sorted by name.
- Firewall: every `iptables` command succeeds; the resolver and the target list give IPv4 addresses
  in canonical decimal.
- Files: a write that takes fewer bytes than it was given reports an error.

## Model

| member | source | states |
|---|---|---|
| Base64.DecodeInvertsEncode | internal/adapters/mailer/mime.go:118 | standard base64 (section 4 of RFC 4648) of any bytes, padding included, decodes to those bytes |
| Base64.EncodeEmitsSymbols | internal/adapters/mailer/mime.go:118 | the encoding consists of the 64 symbols and `=` only, so no encoded line can look like a boundary |
| Base64.DigitsAreTheAlphabet | internal/adapters/mailer/mime.go:118 | the 64 digits are A to Z, a to z, 0 to 9, + and /, in this order |
| Base64.EncodeIsBigEndian | internal/adapters/mailer/mime.go:118 | a group of four digits is the 24 bits of its three bytes, most significant first; shorter groups are padded with zero bits and `=` |
| Multipart.OpenLinesAppend | internal/adapters/mailer/mime.go:94-109 | adding a part to an open multipart body puts one line break before its delimiter unless it is the first part |
| Multipart.MultipartReadsBack | internal/adapters/mailer/mime.go:62-112 | a reader by section 5.1.1 of RFC 2046 (prefix test on lines, preamble and epilogue ignored) finds exactly the parts written, in order, for any number of parts whose lines do not start with the delimiter |
| Mailer.Lines76Wraps | internal/adapters/mailer/mime.go:116-127 | the lines concatenate to the encoding, all but the last have 76 characters, none has more, and the last is empty only when there is nothing to encode |
| Mailer.HeaderLinesAre | internal/adapters/mailer/mime.go:45-60 | the seven header lines, word by word |
| Mailer.AlternativeLineIs | internal/adapters/mailer/mime.go:62-64 | the header line of the alternative part, word by word |
| Mailer.LeafLinesAre | internal/adapters/mailer/mime.go:79-108 | the delimiter, header and blank lines of a body and of an attachment, word by word |
| Mailer.LeafReadsBack | internal/adapters/mailer/mime.go:98-108 | one base64 leaf, wrapped and framed, reads back as its headers and its bytes, the empty attachment included |
| Mailer.OtherBoundary | internal/adapters/mailer/mime.go:41-43 | no line of the inner multipart body, its delimiters included, is a delimiter of the outer one, given only that the boundaries differ and have equal length |
| Mailer.MixedIsGood | internal/adapters/mailer/mime.go:62-109 | no part of the message contains a line that starts with the outer delimiter |
| Mailer.MessageReadsBack | internal/adapters/mailer/mime.go:29-114 | the message as bytes, split into lines and read with nested readers, gives the seven headers, the non-empty bodies and the attachments in order, each with its bytes |
| Mailer.ReceivedSaysWhatWasSent | internal/adapters/mailer/mime.go:45-109 | what is read back has sender, recipient, subject, date, message ID and MIME version under their names, the text before the HTML with their types, and each attachment's type, disposition and bytes |
| MailWriter.MultipartWriter.CreatePart | internal/adapters/mailer/mime.go:79-82 | appends to the shared buffer a delimiter line, preceded by a line break after the first part, the header lines and a blank line |
| MailWriter.MultipartWriter.Close | internal/adapters/mailer/mime.go:110-112 | appends the closing delimiter on a line of its own |
| MailWriter.WriteBase64 | internal/adapters/mailer/mime.go:117-127 | the loop that re-slices the encoding appends exactly its 76-character lines, each with CR LF |
| MailWriter.WriteLeaf | internal/adapters/mailer/mime.go:79-88 | one more part and its base64 turn the buffer of n parts into the buffer of n + 1 parts |
| MailWriter.WriteBodies | internal/adapters/mailer/mime.go:72-92 | the nested writer leaves a complete multipart body of the non-empty bodies |
| MailWriter.WriteAttachments | internal/adapters/mailer/mime.go:94-112 | succeeds iff no file name has a line break, and then the buffer is the complete outer body |
| MailWriter.WriteMixed | internal/adapters/mailer/mime.go:62-112 | the two writers sharing one buffer produce the nested body as a whole |
| MailWriter.WriteHead | internal/adapters/mailer/mime.go:56-60 | the header block is one line per field and a blank line |
| MailWriter.BuildMessage | internal/adapters/mailer/mime.go:29-114 | succeeds iff neither sender nor recipient nor a file name holds a CR or an LF and the recipient parses; otherwise the error is that of the first check that fails, in the order sender, recipient, parsing, file names; what it returns is the message's bytes and reads back as what was to be sent |
| LiveScan.StoreIsHistory | internal/adapters/queue/livescan.go:30-44 | after any sequence of arms and pops, timers and payloads both hold exactly the keys last armed: with the fire time of the first arm since the last pop and the payload of the newest |
| LiveScan.EveryArmIsAccountedFor | internal/adapters/queue/livescan.go:26-44 | every armed payload is delivered by a pop, still pending, or overwritten by a later arm of its key |
| LiveScan.EveryDeliveryIsOneArm | internal/adapters/queue/livescan.go:36-44 | a pop delivers iff exactly one arm has it as its fate, and the payload is the newest armed before the pop |
| LiveScan.EachWindowIsDeliveredOnce | internal/adapters/queue/livescan.go:36-44 | two pops of a key that both deliver close different windows, one opened after the other was closed |
| LiveScan.InvHolds | internal/adapters/queue/livescan.go:91-111 | in every interleaving each worker's listed keys split into those it popped and those it still has to pop |
| LiveScan.WindowIsStable | internal/adapters/queue/livescan.go:26-34 | a window nobody pops keeps its first fire time, however often it is armed again |
| LiveScan.PopMeetsListedWindow | internal/adapters/queue/livescan.go:91-111 | the next pop meets the due window it listed, unless another worker popped that key since the listing |
| LiveScan.SoleWorkerIsNeverEarly | internal/adapters/queue/livescan.go:89-111 | with one popping worker and arms at any moment every pop delivers, and none before the fire time |
| LiveScan.EarlyOnlyAfterRearm | internal/adapters/queue/livescan.go:91-111 | a key about to fire early was popped by another worker and armed again, both since the listing |
| LiveScan.ReturnLeavesNothingDue | internal/adapters/queue/livescan.go:89-111 | with any number of workers, an error-free call leaves open no window that was open at its listing with a first fire time not after the time asked for |
| LiveScan.EarlyExactlyAfterRearm | internal/adapters/queue/livescan.go:91-111 | in every run the pop at hand is early iff the key's window was opened after the listing by an arm for a time the listing had not reached |
| LiveScan.RearmFiresEarly | internal/adapters/queue/livescan.go:91-111 | whenever two workers are about to pop one key, a pop and an arm in between make the other fire early |
| LiveScan.BothWorkersCanList | internal/adapters/queue/livescan.go:92-98 | from an empty store any two workers can come to be about to pop one key |
| LiveScan.AnyWindowCanFireEarly | internal/adapters/queue/livescan.go:91-111 | from an empty store, for any two workers, any key and any later fire time, the run in which one of them delivers the payload before that time |
| LiveScan.LiveScanStore.ArmPending | internal/adapters/queue/livescan.go:82-87 | the payload is replaced, the fire time set only if there was none; it is the arm of the state machine |
| LiveScan.LiveScanStore.PopPending | internal/adapters/queue/livescan.go:36-44 | returns and removes the payload if the key had a timer, else nothing; it is the pop of the state machine |
| LiveScan.LiveScanStore.ListDue | internal/adapters/queue/livescan.go:92-98 | lists each key whose fire time is not after the time asked for once, earliest first, and no other |
| LiveScan.LiveScanStore.PopListed | internal/adapters/queue/livescan.go:99-110 | the loop pops the listed keys in order and returns their payloads, up to the pop that is refused |
| LiveScan.LiveScanStore.PopDuePending | internal/adapters/queue/livescan.go:89-111 | alone, a call that succeeds returns the payloads of all windows with a fire time not after the time asked for, earliest first, and exactly the later ones remain; a refused listing changes nothing, a refused pop leaves that window and the later ones in place and the earlier ones delivered |
| WindowCounter.NoExpiryExactlyInBetween | internal/adapters/queue/livescan.go:113-127 | a live counter has no expiry iff a caller is between its two commands or an EXPIRE failed; never are two callers there |
| WindowCounter.WindowCountsUp | internal/adapters/queue/livescan.go:113-117 | the values returned inside one window are 1, 2, ..., without gap or repeat, in every interleaving |
| WindowCounter.FailedExpiryIsForever | internal/adapters/queue/livescan.go:121-125 | from any reachable state with a failed EXPIRE, no continuation starts a window again and the count never falls |
| WindowCounter.AnyExpiryCanFail | internal/adapters/queue/livescan.go:121-125 | every call that starts a window can lose its EXPIRE, whatever happened before |
| WindowCounter.FirstExpiryCanFail | internal/adapters/queue/livescan.go:121-125 | the first call of all can |
| WindowCounter.DeadlineCountsFromExpire | internal/adapters/queue/livescan.go:113-125 | in every run the deadline is one length after the EXPIRE; it is one length after the first increment iff no time passed between the two commands |
| WindowCounter.TwoWindowsApart | internal/adapters/queue/livescan.go:113-127 | calls two windows apart are more than one window length apart |
| WindowCounter.CapHolds | internal/adapters/queue/livescan.go:113-127 | no time interval one window long holds more than twice the cap of calls that got a value within the cap |
| WindowCounter.CounterStore.IncrWindowCount | internal/adapters/queue/livescan.go:115-127 | counts up and keeps the deadline if there is a counter whose deadline, if any, lies ahead, else starts one at 1 with the deadline one length away; a failed INCR changes nothing, a failed EXPIRE leaves no deadline; the object stays in the state of a run |
| JobQueue.CopiesAreConserved | internal/adapters/queue/jobqueue.go:36-88 | per job ID, copies in the two lists plus requeuers between their commands plus effective acks plus requeues whose LPUSH failed equal enqueues plus requeues that found nothing |
| JobQueue.NothingLostOrDuplicated | internal/adapters/queue/jobqueue.go:80-88 | enqueues minus effective acks are all accounted for iff as many requeues of that ID failed in their LPUSH as found nothing to remove |
| JobQueue.FailedPushLosesJob | internal/adapters/queue/jobqueue.go:84-87 | the run in which a requeue whose LPUSH fails leaves a job in neither list, unacknowledged |
| JobQueue.LateRequeueRevivesJob | internal/adapters/queue/jobqueue.go:80-88 | the run in which a requeue after the ack puts an acknowledged job back on the pending list |
| JobQueue.RemoveFirstKeepsOrder | internal/adapters/queue/jobqueue.go:57-62 | the copy removed is the first one, and the rest keep their order |
| JobQueue.ClaimsAreAccountedFor | internal/adapters/queue/jobqueue.go:46-78 | in every run the claims are the jobs in flight plus the effective acks plus the jobs requeues took back |
| JobQueue.ClaimKeepsEveryCopy | internal/adapters/queue/jobqueue.go:40-55 | a claim, also one that times out, changes no ID's number of copies: a claimed job is never in neither list |
| JobQueue.ClaimsFollowPushes | internal/adapters/queue/jobqueue.go:35-55 | claims so far followed by the pending list, oldest first, are all pushes in order |
| JobQueue.ClaimsFollowEnqueues | internal/adapters/queue/jobqueue.go:35-55 | without requeues the claimed IDs are a prefix of the enqueued IDs |
| JobQueue.Queue.Enqueue | internal/adapters/queue/jobqueue.go:35-38 | continues the run by one enqueue: the object's lists stay those of a run, so conservation and order hold of them |
| JobQueue.Queue.Claim | internal/adapters/queue/jobqueue.go:46-55 | continues the run by one claim: the oldest pending ID moves to the front of the processing list, or nothing changes |
| JobQueue.Queue.Ack | internal/adapters/queue/jobqueue.go:57-62 | continues the run by one ack: one copy leaves the processing list, if there is one, and the order of the rest stays |
| JobQueue.Queue.JobsInFlight | internal/adapters/queue/jobqueue.go:71-78 | all claims so far, less the effective acks and the jobs requeues took back |
| JobQueue.Queue.Requeue | internal/adapters/queue/jobqueue.go:80-88 | continues the run by both commands: a job found in the processing list moves to pending and no copy is lost or made; a failed LREM changes nothing, after a failed LPUSH a job that was found is in neither list |
| DockerLogs.DemuxLogs | internal/adapters/dockerx/client.go:323-348 | the loop, which consumes at least eight bytes a turn, returns what the recursive definition over frames gives, errors included |
| DockerLogs.OneFrame | internal/adapters/dockerx/client.go:334-344 | the layout byte by byte: type first, size big-endian in bytes 4 to 7, then the payload; type 1 is standard output, type 2 standard error, any other is dropped |
| DockerLogs.FramesOf | internal/adapters/dockerx/client.go:328-338 | whole frames in front of any further input are read first and unchanged |
| DockerLogs.DemuxUndoesFraming | internal/adapters/dockerx/client.go:339-347 | for any list of frames the outputs are the type-1 payloads joined and the type-2 payloads joined; other types are dropped |
| DockerLogs.FramesEncodeBack | internal/adapters/dockerx/client.go:323-348 | an input that is accepted is the encoding of the frames read from it |
| DockerLogs.SucceedsExactlyOnFrames | internal/adapters/dockerx/client.go:323-348 | succeeds iff the input is a concatenation of whole frames and the reader ends with io.EOF |
| DockerLogs.DemuxConcat | internal/adapters/dockerx/client.go:323-348 | distributes over the concatenation of accepted inputs, stream by stream |
| DockerLogs.TruncationIsRejected | internal/adapters/dockerx/client.go:328-338 | a stream cut inside a frame is refused: with the reader's own error if it broke, io.EOF right after a header, io.ErrUnexpectedEOF elsewhere |
| SandboxJobs.InvHolds | internal/adapters/k8spentestsandbox/runner.go:109-202 | in every interleaving, with any API call failing, each call owes exactly the clean-ups of what it made, newest first, and the semaphore holds the calls with a slot |
| SandboxJobs.JobsStayWithinLimit | internal/adapters/k8spentestsandbox/runner.go:90-115 | Jobs nobody has asked to delete never outnumber the taken slots, so live Jobs exceed maxConcurrent (1 if that is below 1) at most by those that linger after the request |
| SandboxJobs.LimitHoldsExactlyWithoutLingering | internal/adapters/k8spentestsandbox/runner.go:83-98 | for every maxConcurrent: all states with at most f Jobs that linger after the request to delete them keep live Jobs within maxConcurrent (1 if that is below 1) iff f is 0 |
| SandboxJobs.BoundIsReached | internal/adapters/k8spentestsandbox/runner.go:445-455 | for every f, with all delete requests accepted or all refused, there is a run with f lingering Jobs and exactly maxConcurrent + f live ones (1 + f below 1) |
| SandboxJobs.LingeringIsUnbounded | internal/adapters/k8spentestsandbox/runner.go:445-455 | for every n, with all delete requests accepted or all refused, there is a run that leaves n live Jobs with all slots free, whatever the limit |
| SandboxJobs.EverySlotIsFreedOnce | internal/adapters/k8spentestsandbox/runner.go:109-115 | a call takes at most one slot and has freed exactly what it took when it returns |
| SandboxJobs.EverythingIsAskedAway | internal/adapters/k8spentestsandbox/runner.go:127-174 | when a call returns, the deletion of every ConfigMap, policy and Job it created has been requested |
| SandboxJobs.PolicyRequestsBracketTheJobs | internal/adapters/k8spentestsandbox/runner.go:154-174 | in target-only mode the policy is made before the Job, is there until somebody asks to delete the Job, and its deletion is requested only after the Job's |
| SandboxJobs.JobCanOutliveItsPolicy | internal/adapters/k8spentestsandbox/runner.go:445-455 | the run in which every request is accepted and a target-only Job is still there when its policy and its slot are gone |
| SandboxJobs.JobComesWithWhatItNeeds | internal/adapters/k8spentestsandbox/runner.go:127-174 | in every run, whatever fails, a Job is created only after its ConfigMap, which it has iff it has a crawl-derived wordlist or a URL list, and its policy, which it has iff its script is none of subfinder, dnsx-brute and gau |
| SandboxJobs.WhatACallLeaves | internal/adapters/k8spentestsandbox/runner.go:445-459 | with its delete requests accepted a returned call leaves no ConfigMap, no policy and at most a Job on its way out; with all refused it leaves everything it created |
| SandboxJobs.TwoConfigMapsNeverRun | internal/adapters/k8spentestsandbox/runner.go:127-152 | a call with a crawl-derived wordlist and a URL list, which the contract of RunSpec (`toolrun.go:75-76`) excludes, would never create a Job: both ConfigMaps have one name |
| SandboxJobs.GetsItsJobExactlyWhen | internal/adapters/k8spentestsandbox/runner.go:117-174 | in every interleaving, a call with a slot whose API calls all succeed gets its Job iff its script has a file, its wordlist is known and it does not need two ConfigMaps of one name |
| Ipv4.DecimalDenotes | internal/adapters/sandbox/sandbox.go:486 | the text of an octet is its decimal numeral without a leading zero |
| Firewall.GlobTestIsCidrTest | internal/adapters/sandbox/sandbox.go:478-484 | for every canonical dotted quad the emitted glob test says public iff the 32-bit value is outside the six CIDR blocks |
| Firewall.ShellAndValidatorAgreeWhen | internal/platform/validate/target.go:125-132 | the shell test and the Go validator agree on an IPv4 address iff it is not multicast and, within 0/8, only 0.0.0.0 |
| Firewall.AcceptedIffSomeRule | internal/adapters/sandbox/sandbox.go:464-491 | the chain with policy DROP accepts a packet iff some rule matches it |
| Firewall.RuleOrderIsIrrelevant | internal/adapters/sandbox/sandbox.go:464-491 | permuting the installed rules changes no packet's fate |
| Firewall.InstallRules | internal/adapters/sandbox/sandbox.go:464-491 | for any target list and resolver answer the installed rules accept exactly loopback, port 53, pinned addresses, and resolved addresses outside the six blocks |
| Firewall.CreatePolicy | internal/adapters/k8spentestsandbox/networkpolicy.go:67-105 | the policy allows exactly port 53 over UDP or TCP and the pinned addresses, each as a /32 block |
| Firewall.Compare | internal/adapters/pentestsandbox/runner.go:252-259 | both backends choose one mode, open egress exactly for subfinder, dnsx-brute and gau; of what they install, the pod sends exactly over loopback, to port 53 and to pinned addresses, the container also to re-resolved public ones |
| Firewall.BackendsAgreeWhen | internal/adapters/k8spentestsandbox/networkpolicy.go:50-90 | in target-only mode the backends permit the same packets iff every re-resolved address is pinned or in a reserved block |
| CloneBudget.OvershootIsOneWrite | internal/adapters/github/clone.go:142-152 | the writes that get through exceed the limit by at most the one that crosses it, and exceed it iff all attempted writes would |
| CloneBudget.LimitedFile.Write | internal/adapters/github/clone.go:142-152 | past the limit nothing is written or counted; otherwise counter and disk grow by the bytes taken, and the error is the disk's or the limit's |
| CloneBudget.LimitedFS.Open | internal/adapters/github/clone.go:110-124 | a handle charges the very counter of its file system |
| CloneBudget.LimitedFS.Chroot | internal/adapters/github/clone.go:126-132 | the sub-tree shares the counter and the limit |
| CloneBudget.CloneRun.Do | internal/adapters/github/clone.go:100-152 | opening, entering and writing in any order keep counter and disk in step with the unwrapped file system cut off at the limit |
| CloneBudget.Clone | internal/adapters/github/clone.go:52-81 | over any files and depths the disk holds what the unwrapped file system would have written up to and including the crossing write; the counter is the bytes on disk and passes the limit by at most that write |
| KeyRotation.KeyPool.Current | internal/adapters/gemini/rotation.go:39-44 | in every run the key is the one numbered by all advances so far modulo the pool size |
| KeyRotation.KeyPool.Advance | internal/adapters/gemini/rotation.go:46-52 | the index moves to the next slot of the ring, as the step of the run in which a call's key is out of quota |
| KeyRotation.KeyPool.Complete | internal/adapters/gemini/client.go:77-101 | with no other call at work, a call tries pairwise different keys in ring order up to the first that is not out of quota and ends there with its outcome; when all are, it fails with the index where it started; it is one call of the run the pool is in |
| KeyRotation.IndexCountsAdvances | internal/adapters/gemini/rotation.go:39-62 | under any interleaving the index is the number of advances modulo the pool size and each call sends at most one request per slot |
| KeyRotation.UndisturbedCallTriesEveryKey | internal/adapters/gemini/client.go:84-94 | a call between whose sends nobody else advanced tries different keys, and all of them if it uses up its attempts |
| KeyRotation.SameKeyExactlyWhen | internal/adapters/gemini/client.go:84-94 | in every run a call sends twice with one key iff the advances in between are a multiple of the pool size |
| KeyRotation.TriesEveryKeyExactlyWhen | internal/adapters/gemini/client.go:70-94 | a call that used up its attempts has tried every key iff no two of its sends lie a multiple of the pool size of advances apart |
| KeyRotation.DoubleAdvanceSkipsAKey | internal/adapters/gemini/client.go:84-101 | for every pool of at least two keys, the run of two calls in which one gives up without having tried the second key |
| ScanPoller.OneTimer | frontend/src/stores/activeScansStore.ts:79-150 | in every interleaving at most one timer is pending, none when stopped, and exactly one while running with no tick in flight |
| ScanPoller.AnnouncesExactlyTheChange | frontend/src/stores/activeScansStore.ts:98-111 | in every run a listing of the organisation whose tick began last announces exactly the scans of the previous successful listing that it lacks; any other listing, and one after a start or an organisation switch, announces nothing |
| ScanPoller.AnnouncedExactlyWhenKnown | frontend/src/stores/activeScansStore.ts:98-111 | in every run of a running poller, some continuation without a listing that holds a scan announces it iff the recorded listing holds it |
| ScanPoller.AnnouncedAgainExactlyWhenListedAgain | frontend/src/stores/activeScansStore.ts:98-111 | after any listing, a scan can be announced without being listed again iff that listing holds it |
| ScanPoller.WrongExactlyWhenScopesDiffer | frontend/src/stores/activeScansStore.ts:101-111 | in every run a listing announces some scan of a listing of another scope iff the tick's organisation is the known one, the recorded listing's token had another scope than the tick's, and it holds a scan that this one lacks |
| ScanPoller.RightExactlyWhenScopesMatch | frontend/src/stores/activeScansStore.ts:101-111 | of an announced scan: if the recorded listing was the known organisation's, both listings are of one scope iff the tick's token was its organisation's; if only the tick's was, they are not |
| ScanPoller.RecordMatchesExactlyWhen | frontend/src/stores/activeScansStore.ts:111 | the listing recorded is the known organisation's iff the tick's token was, which is not compared |
| ScanPoller.MismatchedListingMisleads | frontend/src/stores/activeScansStore.ts:98-111 | from every reachable state in which a listing of another scope than the known organisation's can arrive, a scan of it can be announced as that organisation's, with token and user record in agreement by then |
| ScanPoller.MovesWithinOneOrganisationMislead | frontend/src/stores/authStore.ts:135-147 | for any two scopes and any organisation: if the user record names that organisation under both, the run that moves from one to the other announces the first one's scan under the second |
| ScanPoller.LateListingMisleads | frontend/src/stores/activeScansStore.ts:98-111 | the run in which a tick answered after a complete switch makes a scan be announced under an organisation no listing of which ever held it |
| ScanPoller.OthersAnnounceNothing | frontend/src/stores/activeScansStore.ts:79-150 | no step but a listing heard while running announces anything |
| ScanPoller.OverlapAnnouncesTwice | frontend/src/stores/activeScansStore.ts:98-111 | the run in which a listing heard after a newer one makes one scan be announced twice |
| ScanPoller.Poller.DoClearTimer | frontend/src/stores/activeScansStore.ts:36-41 | the pending timeout, if any, is cancelled and forgotten |
| ScanPoller.Poller.DoFire | frontend/src/stores/activeScansStore.ts:123-126 | a timeout that goes off begins a tick |
| ScanPoller.Poller.DoRefetch | frontend/src/lib/apiClient.ts:117-120 | a listing requested again after a refresh is one of the token of that moment |
| ScanPoller.Poller.DoBeginTick | frontend/src/stores/activeScansStore.ts:79-87 | cancels the timer, forgets the recorded listing if the user's organisation is another than the known one, and starts a request with the organisation and token of that moment |
| ScanPoller.Poller.DoStart | frontend/src/stores/activeScansStore.ts:135-139 | sets running and begins a tick; does nothing when running |
| ScanPoller.Poller.DoStop | frontend/src/stores/activeScansStore.ts:140-146 | clears running, timer, recorded listing and known organisation; ticks under way go on |
| ScanPoller.Poller.DoRefresh | frontend/src/stores/activeScansStore.ts:147-149 | begins a tick; does nothing when stopped |
| ScanPoller.Poller.DoRearm | frontend/src/stores/activeScansStore.ts:119-128 | the finally block leaves exactly one new timer if running |
| ScanPoller.Poller.Resume | frontend/src/stores/activeScansStore.ts:98-128 | a running poller announces what the recorded listing has more, if the tick's organisation still is the known one, and records the new one; an error records and announces nothing; both rearm |
| TokenRefresh.SingleFlight | frontend/src/stores/authStore.ts:173-196 | in every interleaving the promise is set iff a refresh is in flight, and there is never a second one |
| TokenRefresh.WaitersShareTheResult | frontend/src/stores/authStore.ts:179-196 | all callers that waited for one refresh got its result |
| TokenRefresh.AtMostOneRetry | frontend/src/lib/apiClient.ts:114-124 | a request fetches at most twice, the second time only after a refresh that gave a token |
| TokenRefresh.ExpiredRequestIsRetried | frontend/src/lib/apiClient.ts:114-124 | a first try answered token-expired with no refresh under way starts one; granted, the token is stored, the promise cleared and the request sent a second time |
| TokenRefresh.DeniedRefreshEndsTheRequest | frontend/src/lib/apiClient.ts:114-124 | denied, the refresh clears token and promise and the request ends after one fetch |
| TokenRefresh.ExpiredRequestJoins | frontend/src/stores/authStore.ts:179-182 | with a refresh under way an expired first try waits for that one and starts none |
| TokenRefresh.OtherAnswersEndTheRequest | frontend/src/lib/apiClient.ts:114-128 | any other answer, and any answer to a retry, ends the request and touches no refresh |
| TokenRefresh.BootstrapOnlyRefreshes | frontend/src/stores/authStore.ts:152-157 | the silent refresh at startup waits for a refresh and fetches nothing itself |
| TokenRefresh.TokenIsTheLastRefresh | frontend/src/stores/authStore.ts:183-193 | as long as nothing else sets it, the access token is what the latest answered refresh gave, none if that failed, and the refresh in flight is the newest |
| TokenRefresh.StuckForever | frontend/src/stores/authStore.ts:183-193 | from any state whose refresh was answered token-expired, no continuation clears the promise, sends another refresh or wakes a waiter |
| TokenRefresh.AnyRefreshCanGetStuck | frontend/src/stores/authStore.ts:183-193 | every refresh in flight can be answered so |
| TokenRefresh.FirstRefreshCanGetStuck | frontend/src/stores/authStore.ts:183-193 | the first refresh of the page can |
| TokenRefresh.ResolvableExactlyWhenNotStuck | frontend/src/stores/authStore.ts:183-193 | the promise in flight can still be settled by some step iff its refresh was not answered that way |
| TokenRefresh.AuthStore.RefreshAccessToken | frontend/src/stores/authStore.ts:179-196 | joins the refresh in flight or starts exactly one |
| TokenRefresh.AuthStore.OnResponse | frontend/src/lib/apiClient.ts:114-124 | a first try answered token-expired comes to await the shared refresh, started if there is none; any other answer ends the request and leaves the refresh alone |
| TokenRefresh.AuthStore.OnRefreshResponse | frontend/src/stores/authStore.ts:184-193 | granted or denied, token and result are set and the promise cleared; answered token-expired, the promise stays and waits for itself |
| AssistantTray.TrayIsSane | frontend/src/stores/assistantStore.ts:59-153 | in every run, late replies included: at most four sessions, of different findings, message IDs strictly increasing in each |
| AssistantTray.ActiveStaysOpen | frontend/src/stores/assistantStore.ts:59-83 | a step keeps the active ID on an open session (none iff no session) exactly when it does not focus a closed finding |
| AssistantTray.ActiveHolds | frontend/src/stores/assistantStore.ts:59-83 | over runs that focus only open findings the active ID is null iff no session is open, and names an open one |
| AssistantTray.OneAnswerPerCommand | frontend/src/stores/assistantStore.ts:85-132 | a session opened with nothing in flight for its finding and kept open gets at most one answered request per command |
| AssistantTray.TwoAnswers | frontend/src/stores/assistantStore.ts:100-132 | a fresh session with an earlier request in flight can be made to get two answered requests for its command |
| AssistantTray.OneAnswerExactlyWhenIdle | frontend/src/stores/assistantStore.ts:59-153 | every continuation that keeps the session open has at most one answered request per command iff nothing was in flight for the finding when it was opened |
| AssistantTray.CanCloseWhileAsked | frontend/src/stores/assistantStore.ts:59-131 | from the start, for every finding and command that sends a request, opening, asking and closing leaves that request in flight without a session |
| AssistantTray.HistoryOnlyGrows | frontend/src/stores/assistantStore.ts:50-52 | no step rewrites or removes a message of a session it leaves open |
| AssistantTray.OpeningDropsTheOldest | frontend/src/stores/assistantStore.ts:65-71 | a new session goes to the end, the others keep their order, and only the oldest of four is dropped |
| AssistantTray.ClosingKeepsTheOthers | frontend/src/stores/assistantStore.ts:77-83 | the other sessions stay in order; the last one left becomes active iff the closed one was, and an empty tray is not minimized |
| AssistantTray.RepeatCostsNothing | frontend/src/stores/assistantStore.ts:100-127 | asking again what the session has an answer to sends no request and shows an answer of that session, uncharged |
| AssistantTray.RepeatShowsTheFirst | frontend/src/stores/assistantStore.ts:101-127 | what is shown is the first answer to that command, marked free and already paid |
| AssistantTray.AskIsSent | frontend/src/stores/assistantStore.ts:85-132 | in a free session locating is answered on the spot, a command without an answer is sent and pending, and other sessions stay as they are |
| AssistantTray.BusyAskIsIgnored | frontend/src/stores/assistantStore.ts:86-87 | a command to a session that is closed or waiting does nothing |
| AssistantTray.ReplyIsShown | frontend/src/stores/assistantStore.ts:129-153 | a reply adds one message to its session and to no other: the server's data, or the error's text, under the command that asked; and the session is free again |
| AssistantTray.ReplyWithoutSessionIsDropped | frontend/src/stores/assistantStore.ts:147-153 | a reply whose session is gone changes no session |
| AssistantTray.AssistantStore.OpenFinding | frontend/src/stores/assistantStore.ts:59-72 | is the state machine's opening: an open finding is only activated, a fifth session pushes out the oldest |
| AssistantTray.AssistantStore.FocusFinding | frontend/src/stores/assistantStore.ts:74 | is the state machine's focus, open or not |
| AssistantTray.AssistantStore.MinimizePanel | frontend/src/stores/assistantStore.ts:75 | is the state machine's minimizing |
| AssistantTray.AssistantStore.CloseFinding | frontend/src/stores/assistantStore.ts:77-83 | is the state machine's closing: the last session left becomes active if the active one was closed |
| AssistantTray.AssistantStore.BeginRun | frontend/src/stores/assistantStore.ts:85-131 | a command up to its await is the state machine's step, and sends a request exactly when a request ID was used up |
| AssistantTray.AssistantStore.EndRun | frontend/src/stores/assistantStore.ts:129-153 | a reply, good or bad, is the state machine's step: its ID is taken on arrival and it lands in whatever session the finding has then |
| SonarPaging.SearchIssues | internal/adapters/sonarqube/client.go:134-192 | against any server, for every number of turns: by then the loop has ended iff some page up to there fails, is empty or reaches the reported total, and returns all issues up to the first such page in order, or its failure; otherwise it has read every page up to there and asks on |
| SonarPaging.SearchHotspots | internal/adapters/sonarqube/client.go:209-253 | the same for hotspots |
| SonarPaging.ToIssue | internal/adapters/sonarqube/client.go:176-185 | an issue's lines are those of its text range if that has a first line other than 0, else its line twice; the rest is taken over |
| SonarPaging.ReadsTheWholeList | internal/adapters/sonarqube/client.go:187-190 | against a fixed list of N items in pages of 500 the end comes at page max(1, ceil(N/500)) and the pages are the list |
| SonarPaging.OneFailureFailsAll | internal/adapters/sonarqube/client.go:170-172 | if one of those requests fails, the loop ends there with nothing |
| SonarPaging.ShrinkingListHidesItems | internal/adapters/sonarqube/client.go:187-190 | if k of the items read so far go away, the k items after them, or all if fewer, are never returned, and every other item is |
| FindingGroups.WorstSeverity | frontend/src/lib/groupFindings.ts:52-65 | the severity of some member that no member is worse than, critical being worst, then high, medium, low, informational |
| FindingGroups.GroupFindingsByRule | frontend/src/lib/groupFindings.ts:27-50 | map and order list yield one group per rule, in first-seen order, holding that rule's subsequence of the input, its first finding and its worst severity |
| FindingGroups.RulesInFirstSeenOrder | frontend/src/lib/groupFindings.ts:28-39 | of two groups the earlier one's rule occurs first in the input |
| FindingGroups.RepresentativeIsFirst | frontend/src/lib/groupFindings.ts:41-48 | the finding that stands for a group is the first of its rule in the input |
| FindingGroups.NoFindingIsLost | frontend/src/lib/groupFindings.ts:27-50 | the groups together hold every finding exactly as often as the input |
| FindingGroups.GroupingIsUnique | frontend/src/lib/groupFindings.ts:27-50 | the specification of a grouping determines the groups |
| FindingGroups.RegroupingChangesNothing | frontend/src/lib/groupFindings.ts:27-50 | grouping the flattened groups gives the same groups |

## Left out

- `MarkDeliverySeen`, `PushEvent`, `PopEvent`, `ListProcessing`: single Redis commands with no property beyond their own.
- Recovery of the queue after a crash or a flushed Redis: the sweep's code is outside these files.
- JobQueue.Queue.Requeue: states both commands with nobody in between; other processes between them are the state machine's steps.
- LiveScan.LiveScanStore.PopDuePending: states the call with nobody else at work; interleaved calls are `LiveScan.Step`.
- WindowCounter.CounterStore.IncrWindowCount: states the call with nobody between its two commands, and one window length per counter; interleavings are `WindowCounter.Step`.
- KeyRotation.KeyPool.Complete: states the call with no other call at work; interleavings are `KeyRotation.Step`. Which API errors count as quota errors is an input.
- MailWriter.BuildMessage: address parsing, Q-encoding, media-type formatting, date, message ID and boundaries are inputs; sending is left out.
- Mailer.MessageReadsBack: the reader matches header names in the builder's own spelling and reads no folded header lines, which the builder never writes.
- DockerLogs.DemuxLogs: running out of memory for a frame of up to 4 GiB.
- SandboxJobs.JobsStayWithinLimit: `TTLSecondsAfterFinished`, `ActiveDeadlineSeconds` and `SweepOrphans`, which later reap Jobs whose deletion was refused, are not modelled.
- SandboxJobs.InvHolds: environment, mounts, logs and exit codes of a Job, and the contents of ConfigMaps.
- Firewall.InstallRules: IPv6, the failure of an `iptables` command, privileges and the user switch of the bootstrap, and the network modes `none` and open egress of a container, which install no rules.
- Firewall.CreatePolicy: ingress, which is always denied, and API failures, which `SandboxJobs` has.
- CloneBudget.Clone: `TempFile` is inherited unwrapped and outside the claim; 64-bit overflow of the counter; reading, seeking, renaming, and the mapping of clone errors.
- ScanPoller.Poller.Resume: progress look-ups, the two polling intervals, the cap on the scans listed, and what `announceFinished` does with the scan it fetches.
- TokenRefresh.AuthStore.OnResponse: bodies, headers and the decoding of problems; network failures are a `Problem` answer.
- AssistantTray.AssistantStore.EndRun: billing notifications and the wording of errors; an answer's content is opaque.
- SonarPaging.SearchIssues: a loop that never ends is stated through every number of its turns. HTTP, authentication, JSON, and the other endpoints of the client.
- SonarPaging.SearchHotspots: as `SearchIssues`.
- FindingGroups.GroupFindingsByRule: findings carry only what grouping looks at.
- The rest of GuardPipe: orchestrator, billing, scoring, stores, rule catalogues, pages, and the other scanners, which repeat patterns modelled here.
