# Polychrome: a verified model of the zygote supervisor and its codecs

Polychrome preloads PHP once and then forks a pool of disposable children, each of which serves
one FastCGI connection and exits. This project models the parts of it whose correctness is hard to
see from any one function, and proves what they keep.

* `Zygote.dfy` is the child (`native/sapi.c:283-306`, `native/sapi.c:326-350`,
  `native/fastcgi_bridge.c:8-13`) and the part of the kernel it shares with its manager: blocked
  and pending signals, nested handlers, one datagram channel per child, the process table, a
  nondecreasing clock. A child moves by single reads and writes of `connection_active` and
  `drain_requested`, so a handler can run between any two of them.
* `Protocol.dfy` is `supervise` (`src/manager.rs:164-312`) as a transition system: one action is one
  system call of the manager, in the source's phase order, or one event outside it. `Exec` runs any
  schedule, so every theorem about it is about every interleaving.
* `Invariant.dfy`, `Safety.dfy`, `Stamps.dfy`, `Idle.dfy`, `Shutdown.dfy`, `Drain.dfy`,
  `Deadline.dfy`, `Pool.dfy`, `ForkRate.dfy` and `RetryTime.dfy` hold the invariant and the theorems
  about runs; `Lifecycle.dfy` is what one child does when it is left alone and when it is signalled.
* `Supervisor.dfy` is the loop as written: a class whose methods update its fields, against an
  operating system in which any outside event may happen before any call. A ghost log records the
  protocol action each call stands for; the class invariant says that the present state is the one
  the protocol reaches by the log, so `Tick` takes exactly one pass of the protocol and every
  theorem above holds of the code.
* `Descriptors.dfy` is who holds which file descriptor across forks, failed ones included.
* `Sapi.dfy` is the state of one request in the child: output, early finish, body budget,
  CONTENT_LENGTH.
* `Bytes.dfy`, `Fcgi.dfy`, `Cgi.dfy` and `Client.dfy` are the FastCGI and CGI printers and parsers
  of `tests/fcgi.py` and `send_headers` (sections 3.3 and 3.4 of the FastCGI Specification 1.0,
  section 6 of RFC 3875).
* `Paths.dfy`, `Glob.dfy`, `Bags.dfy`, `FileTree.dfy`, `TreeFilter.dfy` and `Discovery.dfy` are
  `preload/discovery.php`: containment, the glob compiler, and the nested loops of `discover` over
  a file tree with links in it that may be enumerated in any order.

Where a promise does not hold of the code, the exact condition under which it does is proved, and a
failing case is shown:

* An exclusion means its glob on every path without a newline exactly if the pattern is free of the
  character U+0001 (`Glob.MeaningExactly`, which also has the degenerate case of a newline in the
  pattern or base); a pattern with it excludes too much (`Glob.SentinelExcludes`), and on paths with
  newlines every pattern excludes too little (`Glob.NewlineEscapes`).
* A parameter list is recovered exactly if every name and value is shorter than 2^31
  (`Fcgi.ParamsRoundTrip`).
* `retry_at` moves back at exactly those steps at which a failure is counted while more of the pause
  is left than the present count of failures asks for (`RetryTime.RetryTimeClimbs`); a run from the
  start reaches such a step (`RetryTime.RetryTimeCanMoveBack`).
* With the root `/` the tree filter sees the first component without its first character; exactly
  when that agrees with the components is `TreeFilter.TopFilterAgrees`, and
  `Discovery.TopTreeIsMissed` shows both ways it can fail.

## Model

| member | source | states |
|---|---|---|
| Invariant.StartOk | src/manager.rs:165-170 | The invariant holds when supervise starts, for every accepted number of workers and timeout |
| Invariant.ReactKeepsChildOk | native/sapi.c:283-306 | Whatever instruction, handler step or signal comes next, a child's flags, mask, handlers, stamp and place in the program stay consistent; in particular a living child with drain_requested set is serving or inside the handler |
| Invariant.ReactKeepsLinked | src/manager.rs:219-234 | What the manager recorded of a child and what the child sent agree after every step of the child |
| Invariant.CallKeepsControl | src/manager.rs:171-310 | Every system call of the loop keeps its phase, counter and pool bounds; in the kill loop every worker already visited and spared is within its timeout |
| Invariant.CallKeepsBound | src/manager.rs:171-310 | Every system call keeps each worker bound to the one unreaped child it was created for |
| Invariant.ExecKeepsInv | src/manager.rs:171-310 | The invariant holds after every schedule of calls, child steps, signals, crashes and clock ticks |
| Safety.NoDrainLost | native/sapi.c:283-306 | A SIGUSR1, SIGTERM or SIGINT pending at a child is, for as long as that child lives, pending, being handled or recorded in drain_requested; and outside the handler a living child with drain_requested set has connection_active set |
| Safety.DrainedChildNeverServes | native/sapi.c:326-342 | A signal that reaches the child before it raises its flag, also between fork and handler installation, means that it lets no connection through and sends no stamp in any continuation |
| Lifecycle.QuietChildServes | native/sapi.c:290-350 | A child nobody disturbs gets as far as accept; given a connection it serves, with exactly one stamp, the time read after the flag was raised |
| Lifecycle.FlagsStopTheChild | native/sapi.c:290-306 | Before accept and behind it a child goes on exactly if neither flag is set, and otherwise exits normally |
| Lifecycle.ServedChildExits | native/sapi.c:301-306 | A served child asked for another connection exits normally without it; its own exit code is the one reported |
| Lifecycle.SignalRuns | native/sapi.c:283-288 | A delivered signal runs its handler to the end in two instructions: an idle child has exited normally, a serving one goes on where it was with drain_requested set |
| Idle.IdleChildExits | native/sapi.c:283-288 | In any reachable state and any continuation: a child in whose idle time a handler has started never leaves that point of its main program, admits nothing, and is dead once its handlers, however they nest, have taken four steps |
| Idle.ReactTraps | native/sapi.c:283-288 | Each step of a handler in an idle child that does not end it stores drain_requested in one activation more; no other event moves the child on |
| Safety.SignalsSpareServingChild | native/sapi.c:283-299 | In every run a child that has set connection_active serves on, unless some action of the run ends it, which is then its own program when the request is over or another connection is asked for, a crash, or the effect of a SIGKILL the manager sent |
| Shutdown.CallReaches | src/manager.rs:248-260 | Every call between the first shutdown signal and the end of the run keeps each child told or still to be told |
| Shutdown.ShutdownReachesEveryChild | src/manager.rs:248-260 | After the first SIGTERM or SIGINT and the notify loop, every living child has SIGUSR1 pending, is handling it or has recorded it, and if nothing is pending or running it is serving a connection |
| Safety.TimeoutIsExact | src/manager.rs:263-267 | Within the bounds of the configuration the cast to u64 and the saturating subtraction decide exactly whether the stamp is at least the timeout old |
| Safety.KillJustified | src/manager.rs:263-283 | Every SIGKILL goes to an unreaped child never killed before, whose own stamp is at least the timeout old, in nanoseconds, or whose drain deadline has passed; so a child without a stamp is never killed before drain expiry |
| Safety.KillPhaseExact | src/manager.rs:263-283 | When the kill loop is through, every worker it spared that has a stamp is younger than the timeout at the clock the loop read |
| Safety.OneConnectionOneStamp | native/sapi.c:290-306 | In every reachable state a child has let at most one connection through and sent at most one stamp, the manager's record is nothing or exactly that stamp, unread stamps are still queued, and a send finds room |
| Stamps.StampIsAcceptTime | native/sapi.c:295-298 | In every run a stamp lies between any moment at which the child had admitted nothing and any at which the stamp has been sent |
| Stamps.KilledNoSooner | src/manager.rs:263-283 | Before drain expiry a child is killed no sooner than the timeout after any moment at which it had admitted nothing |
| Stamps.BornIsForkTime | src/manager.rs:152-160 | In every run a worker's birth lies between any moment before its child was forked and any after it |
| Safety.Accounting | src/manager.rs:173-177 | In every reachable state the workers are exactly the forked and unreaped children, forked is workers plus reaped, the pool is within its bound, and a manager that is done has reaped every child |
| Safety.SignalsReachOwnChild | src/manager.rs:254-258 | A SIGUSR1 or SIGKILL is only ever addressed to the unreaped child the worker was created for, never to a recycled pid |
| Safety.StampedIsNoStartupFailure | src/manager.rs:219-234 | A child whose stamp is queued when the stamp loop has still to visit it is never counted as a startup failure by a later reap; the reap clears the count and leaves retry_at alone |
| Drain.DrainingIsFinal | src/manager.rs:248-260 | Once draining, always draining: nothing is forked, an expired deadline stays expired whatever signals and poll errors follow, an unexpired one is never extended, workers only leave and killed ones stay killed |
| Deadline.DeadlineIs | src/manager.rs:213-260 | For every action: the first SIGTERM or SIGINT sets the deadline thirty seconds ahead, any further one and a failing poll set it to now, nothing else touches it; only a failing poll is fatal |
| Deadline.GracePeriod | src/manager.rs:248-283 | After one shutdown signal, and neither another nor a failing poll, a worker within its request timeout is killed thirty seconds later at the earliest |
| Deadline.GraceEnds | src/manager.rs:249-283 | After a second shutdown signal, or a failing poll, the deadline is behind in every continuation, and whenever a kill loop is over no worker is left unkilled |
| Drain.ExecSweeping | src/manager.rs:264-283 | With the deadline behind it, every continuation has all workers killed whenever a kill loop is over |
| Drain.ExecCollecting | src/manager.rs:284-306 | A child that is dead before the reap loop ends is out of the pool when the exit test is made |
| Drain.PassProgress | src/manager.rs:171-310 | During draining a pass in which time advances, or a killed child dies, leaves the loop or lowers the measure: time left, workers unkilled, workers unreaped |
| Drain.PassKeepsRank | src/manager.rs:171-310 | Any pass during draining, whatever happens in it, leaves the loop or goes on with the measure no larger |
| Drain.DrainTerminates | src/manager.rs:307-309 | However many passes a run has, at most measure plus one of them are fair (time advances, or a killed child dies), and a run with that many has left the loop with no worker and every child reaped |
| Pool.RoundBeginsExactly | src/manager.rs:172-173 | A round of forks begins exactly if the manager is not draining, the backoff is over and a place is free |
| Pool.RoundEndsExactly | src/manager.rs:173-186 | A round ends exactly with a failing fork or a full pool, and each fork adds one worker |
| Pool.ReadyOnlyIfFull | src/manager.rs:187-199 | The manager becomes ready only with a full pool |
| Pool.FullIsReady | src/manager.rs:187-199 | A round that ends with a full pool leaves it ready |
| ForkRate.BackoffIsCappedDoubling | src/manager.rs:178-183 | For every failure count, clamping the shift at six gives the doubling delay capped at five seconds |
| ForkRate.BackoffValues | src/manager.rs:299-301 | At least 200 ms after the first failure, exactly 5 s from the sixth on, never more |
| ForkRate.CrashLoopForkRate | src/manager.rs:172-186 | In any window of any run in which every child reaped had exited other than with 0, without a stamp and less than a second old: at most N forks for every started 200 ms, and after five failures for every started 5 s |
| ForkRate.FailureStartsWaiting | src/manager.rs:297-301 | A startup failure or failed fork forbids forking for its pause, at least 200 ms and 5 s from the sixth on |
| RetryTime.ReapClassifies | src/manager.rs:290-304 | An exit other than with 0, without a stamp and within a second of birth, raises the count as far as 32 bits hold it and sets retry_at; any other clears the count and leaves retry_at |
| ForkRate.RoundsAreApart | src/manager.rs:172-186 | While only startup failures follow, nothing is forked before that pause is over, over any run |
| RetryTime.RetryIsNear | src/manager.rs:178-182 | In every reachable state retry_at lies at most five seconds ahead |
| RetryTime.MovesBackExactly | src/manager.rs:295-304 | An action moves retry_at back exactly if it counts a failure while retry_at lies beyond the pause for the present count |
| RetryTime.RetryTimeClimbs | src/manager.rs:171-310 | Over any run retry_at is monotone exactly if no action of the run meets that guard |
| RetryTime.CrashLoopClimbs | src/manager.rs:295-304 | As long as no exit clears the count, retry_at never moves back and stays within the next pause |
| RetryTime.FailureAfterReset | src/manager.rs:302-304 | A failure right after an exit that cleared the count moves retry_at back exactly if more than 200 ms of the pause were left |
| RetryTime.RetryTimeCanMoveBack | src/manager.rs:284-306 | A run from the start of supervise reaches a state in which the next reap moves retry_at back from 400 ms to 200 ms ahead |
| Supervisor.Loop.constructor | src/manager.rs:165-170 | The fresh loop stands for the protocol's start state |
| Supervisor.Loop.Record | src/manager.rs:171-310 | Given that a system call, with what happened before it, was one protocol action, logging that action restores the class invariant |
| Supervisor.Loop.Begin | src/manager.rs:172 | It spawns exactly if it is not draining, the clock has reached retry_at and a place is free; no clock is read while draining |
| Supervisor.Loop.ForkOne | src/manager.rs:174-184 | One spawn adds one new worker, born now, or counts its failure and backs off from it |
| Supervisor.Loop.SpawnAll | src/manager.rs:173-186 | The spawn loop fills the pool or ends at the first failure |
| Supervisor.Loop.PollOnce | src/manager.rs:213-217 | A poll error other than an interruption sets fatal and a deadline of now, any other outcome sets neither |
| Supervisor.Loop.ReadStamps | src/manager.rs:222-233 | One channel is emptied and the first stamp kept |
| Supervisor.Loop.TellAll | src/manager.rs:254-258 | The loop goes through the whole notify phase, one SIGUSR1 for each worker |
| Supervisor.Loop.TakeSignal | src/manager.rs:236-260 | One pending signal is taken: the first SIGTERM or SIGINT sets the deadline thirty seconds ahead and tells the children, a further one sets it to now, others leave it |
| Supervisor.Loop.HandleSignals | src/manager.rs:235-261 | Every pending signal is taken |
| Supervisor.Loop.Enforce | src/manager.rs:264-282 | One visit of the kill loop: an expired worker is killed afterwards |
| Supervisor.Loop.EnforceAll | src/manager.rs:263-283 | The kill loop visits every worker once, by one reading of the monotonic clock |
| Supervisor.Loop.CountExit | src/manager.rs:295-304 | What is a startup failure, spelled out, and what it and any other exit do to failures and retry_at |
| Supervisor.Loop.ReapOne | src/manager.rs:286-305 | One waitpid: a worker less, or no zombie is left |
| Supervisor.Loop.ReapAll | src/manager.rs:284-306 | Afterwards no worker's child is a zombie that was there at the last waitpid |
| Supervisor.Loop.Tick | src/manager.rs:171-310 | One iteration is one pass of the protocol: its log is a pass, its end state the protocol's, and the accounting holds |
| Supervisor.Loop.Supervise | src/manager.rs:171-312 | The loop stops by its exit test or when the script of outside events is used up; if it returns it was draining, and every child ever forked has been reaped |
| Descriptors.Processes.Spawn | src/manager.rs:117-161 | A new child is left with exactly what was open before the first fork, less the signalfd, and the write end of its channel; the manager gains the read end; after either failure its descriptors are what they were |
| Descriptors.Processes.CloseInherited | src/manager.rs:135-139 | The child gives up its own read end, the signalfd and every other worker's read end, and nothing else |
| Descriptors.Processes.Reap | src/manager.rs:290 | Removing a worker closes its read end and only that |
| Descriptors.Processes.OnlyOwnChildWrites | src/manager.rs:117-161 | Whoever can write to a worker's channel is that worker's child, so a stamp read under a pid was sent by it |
| Descriptors.Processes.OthersKeepNothing | src/manager.rs:135-139 | No child keeps a read end or the signalfd, the manager keeps no write end, and its read ends belong to its workers |
| Descriptors.Processes.NoLeak | src/manager.rs:151-160 | The manager has exactly one descriptor per worker beyond those it started with |
| Sapi.Request.FcgiWrite | native/sapi.c:58-63 | The assumed FastCGI layer: a positive count taken from the front, or failure for good |
| Sapi.Request.WriteOutput | native/sapi.c:51-66 | After the early finish nothing is sent and the full length reported; before it all bytes go out in order, or a prefix when the connection is lost |
| Sapi.Request.SendHeaderLines | native/sapi.c:68-83 | The status line, the headers other than Status and empty ones, in order, and the blank line; nothing after the finish |
| Sapi.Request.FlushOutput | native/sapi.c:85-91 | A flush sends the headers unless sent or finished |
| Sapi.Request.FinishRequest | native/sapi.c:154-168 | The buffered output goes out behind the headers, the response is ended, and a second call sends nothing and reports failure |
| Sapi.Request.EndRequest | native/sapi.c:417-421 | On every path the request ends up ended exactly once |
| Sapi.Request.ReadPost | native/sapi.c:93-101 | One read returns the next bytes of the body, within the budget, as many as are asked for and there if the connection gives them, and none after the finish |
| Sapi.Request.ReadBody | native/sapi.c:93-101 | Any sequence of reads gets a prefix of the body no longer than CONTENT_LENGTH |
| Sapi.OutputStopsAtFinish | native/sapi.c:51-66 | Over any sequence of writes, flushes and finishes the response is what was produced up to the first finish, in order, with the headers once |
| Sapi.EndedOnce | native/sapi.c:417-421 | Over any such sequence the request is ended exactly once |
| Sapi.BodyLengthIsDecimal | native/sapi.c:356-364 | CONTENT_LENGTH, up to its first NUL, is accepted exactly if it is absent, empty or digits only with a value of at most LONG_MAX, and the length is that decimal value |
| Paths.WithinIsAncestry | preload/discovery.php:16-19 | On canonical paths within is ancestry by components, for every directory including "/" |
| Paths.UnderRootIsAncestry | native/sapi.c:316-320 | The prefix test of permitted_script agrees with within for every root, except that it refuses a path equal to a root other than "/" |
| Glob.RewriteIsTokenwise | preload/discovery.php:24-27 | Three replacements on the escaped text equal a translation token by token, for every run of stars |
| Glob.SentinelIsMistaken | preload/discovery.php:26-27 | The tokens are those of the glob exactly if it is free of the sentinel character |
| Glob.ExclusionCompiles | preload/discovery.php:22-29 | The pattern, read back as a regular expression in which a bare delimiter is an error, is the base literally, the glob's tokens and any rest, for every pattern and base |
| Glob.NormalReads | preload/discovery.php:24 | A pattern is read without its leading slashes of either kind and with every backslash for a slash |
| Glob.SlashesAreAlike | preload/discovery.php:24 | A slash of either kind in front of a pattern makes no difference to what it excludes, nor does the kind of one inside |
| Glob.AcceptsIsFits | preload/discovery.php:28 | The backtracking matcher accepts exactly the lines that split into pieces for the tokens, up to a final newline |
| Glob.ExclusionExact | preload/discovery.php:22-29 | What a pattern excludes, for every pattern, base and path, newlines and sentinels included |
| Glob.ExclusionMeaning | preload/discovery.php:21-29 | Without a sentinel in the pattern and a newline in the path: a path is excluded exactly if below the base it begins with a match of the pattern as it is to be read, `*` within a component and `**` anything |
| Glob.MeaningExactly | preload/discovery.php:21-29 | That holds of all paths without a newline exactly if the pattern has no sentinel, or it or the base has a newline |
| Glob.SentinelExcludes | preload/discovery.php:26-27 | Every pattern with the sentinel, if it and the base are free of newlines, excludes some path it does not mean |
| Glob.NewlineEscapes | preload/discovery.php:28 | Every pattern fails to exclude some path with newlines that it means |
| Glob.SentinelExcludesTooMuch | preload/discovery.php:26-27 | A pattern holding the sentinel excludes a path its glob does not match |
| FileTree.WalkLeaves | preload/discovery.php:73-79 | However directories are enumerated, the walk yields the same leaves equally often |
| FileTree.LinksAreNotFollowed | preload/discovery.php:76 | The leaves are those of the tree without its links, wherever these point |
| FileTree.PrunedIsAvoided | preload/discovery.php:77 | Pruned are exactly the names test, tests, fixture, fixtures, modules, themes, node_modules, vendor and .git in letters of either case, a final newline allowed |
| Paths.StemIsCanonical | preload/discovery.php:84 | The paths of what a walk finds are canonical, below the root "/" too |
| FileTree.LeafIsReached | preload/discovery.php:74-79 | Every file the walk yields lies below the start over directories that are neither links nor pruned |
| FileTree.ReachedIsLeaf | preload/discovery.php:74-79 | Every such file is yielded |
| Discovery.SourceMember | preload/discovery.php:35-56 | The sources are exactly the packages of installed.json that are neither development dependencies nor Drupal extensions, in directories that exist, the project itself, and the three core directories that exist, with all defaults spelled out |
| Discovery.CollectSources | preload/discovery.php:38-56 | The loops over packages and core directories collect those sources in order |
| Discovery.TargetsAreDeclared | preload/discovery.php:60-65 | A target is what the classmap or a directory list of psr-0 or psr-4 names |
| Discovery.TargetsCount | preload/discovery.php:60-65 | Each is visited as often as the three name it |
| Discovery.CollectTargets | preload/discovery.php:60-65 | The loops over the standards collect them in order |
| Discovery.VisitLeaf | preload/discovery.php:84-95 | One entry: left out, skipped and counted once, or kept without a duplicate |
| Discovery.VisitCandidate | preload/discovery.php:71-96 | One glob result: skipped if it resolves to nothing or outside the root, else every file it leads to is judged |
| Discovery.VisitSource | preload/discovery.php:59-99 | One package: every target, candidate and file is judged once by that package's exclusions |
| Discovery.Sort | preload/discovery.php:101 | A strictly sorted permutation |
| Discovery.SortedIsUnique | preload/discovery.php:100-101 | A strictly sorted list is determined by what it holds |
| Discovery.Discover | preload/discovery.php:32-103 | The nested loops return the sorted list of the files taken and the number skipped, and nothing for a root that does not exist |
| Discovery.Characterisation | preload/discovery.php:57-102 | A file is in the result exactly if some source declares a target with a candidate within the root that leads to it, and it passes the global filters and that source's own exclusions; the list is strictly sorted in the order of strcmp |
| Discovery.AllowedMeans | preload/discovery.php:85-94 | By components: a file below the root is allowed exactly if its name ends in ".php" and is not index.php, no component the filter sees has one of the names, and no exclusion of the source matches |
| Discovery.SkipsAreCounted | preload/discovery.php:72-93 | Something is counted as skipped exactly if some candidate of a source lies nowhere or outside the root, or leads to a PHP file that is not allowed |
| Discovery.OrderIndependence | preload/discovery.php:57-102 | The files and the skip count are the same for every order in which glob and the directory iterators enumerate |
| TreeFilter.FilterIsByComponent | preload/discovery.php:87-88 | For every file that gets as far as the tree filter: it looks for its names among the components below the root, for the root "/" with the first character cut off |
| TreeFilter.FiltersMean | preload/discovery.php:85-88 | The tests on the text of a path are tests on the components below the root and on the last name |
| TreeFilter.TopFilterAgrees | preload/discovery.php:87-88 | For the root "/" the filter agrees with the components exactly if a later one is named, or the first is named with and without its first character, or neither |
| Discovery.TopTreeIsMissed | preload/discovery.php:87-95 | Whatever discover returns for a certain disk and the root "/", it holds a file of a top-level tests directory and lacks one of an xtests directory |
| Fcgi.LengthRoundTrip | tests/fcgi.py:14-15 | A length is read back exactly if it is below 2^31 |
| Fcgi.EncodeParams | tests/fcgi.py:10-18 | The loop produces the encoding of the pairs in order, or the error of struct.pack for a length beyond 32 bits |
| Fcgi.ParamsRoundTrip | tests/fcgi.py:10-18 | A decoder recovers the parameter list exactly if every name and value is shorter than 2^31 |
| Fcgi.StreamShape | tests/fcgi.py:85-90 | Data records are non-empty and at most 65535 bytes, all but the last of them full, the empty record comes once and at the end, and the contents add up to the data |
| Fcgi.SendStream | tests/fcgi.py:88-90 | The loop sends exactly that stream |
| Fcgi.SendRequest | tests/fcgi.py:83-90 | What is sent decodes to the flag, the parameters and the body exactly if each name and value is shorter than 2^31 |
| Fcgi.RequestRoundTrip | tests/fcgi.py:83-90 | The same of the record sequence, for every body |
| Fcgi.ReceiveExact | tests/fcgi.py:30-37 | However the socket cuts its data, the next bytes asked for, or the error exactly if there are fewer |
| Fcgi.ReceiveStreams | tests/fcgi.py:40-54 | The record loop's result depends on the bytes alone, not on the pieces recv returns |
| Fcgi.ResponseRoundTrip | tests/fcgi.py:40-54 | However records of kinds 6 and 7 are cut, padded and interleaved, both streams come out whole and reading stops behind the record of kind 3 |
| Cgi.ReadLinesLoop | tests/fcgi.py:56-66 | The header loop computes the specified reading, for any text functions that behave like Python's on ASCII |
| Cgi.HeadersRoundTrip | native/sapi.c:68-83 | A block printed by send_headers from headers free of CR and LF, and a body, are read back as the code, the headers other than Status in order, and the exact body; or end in an exception exactly if a header cannot be decoded |
| Cgi.PairsRoundTrip | tests/fcgi.py:55-67 | A header `n:v` printed by send_headers is read as n in small letters and v without the white space around it, in order, with the code and the body |
| Cgi.StatusIsDropped | native/sapi.c:77 | Empty headers, and those named Status in letters of either case, leave no trace in what is printed |
| Client.ReceiveResponse | tests/fcgi.py:40-67 | The client's answer is a function of the bytes sent |
| Client.ReplyRoundTrip | tests/fcgi.py:40-67 | Records, padding and both streams together: the client reads the code, headers, body and diagnostics of a response printed by send_headers, or raises an exception exactly if a header cannot be decoded |

## Left out

- Supervisor.Loop.Enforce: the kill loop's clock read and its SIGKILL are one action of the protocol; what happens between the two is taken to happen before both, and only a worker found overdue is affected.
- Supervisor.Loop.ForkOne: the clock read that follows fork (`born`, `retry_at` after a failure) is taken at the instant of the call, as are those that follow poll, signalfd reads and waitpid.
- Supervisor.Loop.Supervise: the loop runs until the script of outside events is used up; that it ends at all is `Drain.DrainTerminates`, under the fairness it states.
- Supervisor.Loop.Begin: `ready` is set when the pool becomes full inside the spawn loop instead of just after it; between the two the source does nothing. The line it prints is not modelled.
- Safety.SignalsSpareServingChild: says nothing of a connection that accept has returned and the child has not yet flagged; the source may drop it.
- Safety.StampedIsNoStartupFailure: a child that accepts and crashes after its channel was read in an iteration can be counted as a startup failure there, so the property is per phase.
- Drain.DrainTerminates: that there are enough fair passes is an assumption about the world: time advances until the deadline, and killed children die sooner or later.
- Sapi.Request.WriteOutput: PHP may leave the script when the connection is lost (a longjmp); the model goes on and sends nothing.
- Sapi.Request.FinishRequest: what PHP had buffered is a parameter, since PHP's output layer is not part of this model.
- Glob.ExclusionMeaning: strings are sequences of characters without an encoding, and PCRE's limits on backtracking are not modelled.
- Cgi.HeadersRoundTrip: Python's `decode`, `lower`, `strip` and `int` are parameters, fixed on ASCII and, for `int`, on an optional minus and digits; which bytes outside ASCII decode, and to what, is theirs to say.
- Discovery.Characterisation: the candidates of a target are what `glob` returns, whose own pattern language is not modelled; files have no permissions, and the tree does not change during the walk.
- Zend and PHP internals (startup, script execution, bailout, INI tables, OPcache): a request is an event that writes, finishes, crashes or hangs.
- PHP's fastcgi.c is not part of this model: it is taken to call the accept hook before each accept and to write a positive count or fail for good.
- Binding sockets, the listener's file mode and unlink, PR_SET_PDEATHSIG with its parent check, and log text: system calls without an invariant to keep.
- src/config.rs beyond the bounds on workers and timeout, JSON reading, realpath, glob and stat: parameters of the model.
- protocol_error's two direct writes, request_getenv, the variable import and permitted_script's suffix, stat and access tests: one-branch facts.
- src/lib.rs, preload/preload.php, build scripts, containers, benchmarks and the browser test.
