# sysl-go in Dafny

A model of the parts of sysl-go in which several pieces of code have to agree, and proofs of what they agree on.

- `Runs.dfy`: runs of a labelled step function. An invariant that every step keeps holds on every run, and what every
  step adds to the labels so far and keeps true of the state is true of every run. `Picks.dfy`: parts of a list, by
  position.
- `TimeoutWriter.dfy`, `TimeoutProtocol.dfy`, `TimeoutLabels.dfy`, `ServerStack.dfy`: the timeout handler. The two
  goroutines are one step function over the buffer, its mutex, the done channel, the one-slot panic channel and the
  deadline. The handler may choose any operation at each step, so it may also react to what its writes return; the
  operations it ran are its history. The buffering writer itself is a class whose methods are proved equal to the
  functions the steps use. On top sit Recoverer, the timeout reply and the request-context middleware with its deferred
  check for open bodies.
- `ServerStart.dfy`, `ServerStop.dfy`, `AutogenServer.dfy`: the life cycle of several servers run as one.
- `Future.dfy`: the one-shot future of `common/async.go`.
- `ExprSyntax.dfy`, `ExprEval.dfy`, `Scope.dfy`: the authorization expression language: grammar, parser, printer,
  validation, evaluation, and the scope claim it asks about. Concrete trees record which argument lists end in the
  optional comma; the grammar is what concrete trees print to.
- `JwksCache.dfy`, `JwksLabels.dfy`, `Authorization.dfy`: the key-set cache under concurrent refreshes, and the way from
  a raw token to access.
- `BodyMonitor.dfy`: the outbound round tripper, its payload logger and the monitor of unclosed bodies, as classes.
  `HandlerBodies.dfy` ties the monitor to the open bodies of the timeout protocol.
- `TlsConfig.dfy`: TLS validation, which lower-cases two fields in place, and the builder that relies on it.

In each protocol the labels of a run are what the environment does and who is scheduled: what a handler calls and
throws, what a sub-server returns, what the issuer serves. The main results about outcomes are stated between those
labels and the final state, so that no bookkeeping of the model stands on both sides.

Where the source and its comments differ, the model follows the source:

- `common/async.go:18-19` says that `Get` blocks until the function returns, panics or the context is done. Once the
  outcome is there, a waiting caller can move before the context ends iff nobody has taken the outcome
  (`Future.CallerCanMoveIff`). So the comment holds for one caller; with two or more, one can be left waiting
  (`Future.StrandedIff`), and then for the context, whatever the function did (`Future.LosersWaitForContext`).
- `authexpr/expr.go:35` speaks of zero or more literal arguments; the struct tag also admits a lone comma, `name(,)`.

Properties that fail in general, with the exact condition under which they hold:

- The cache's nil key set is never dereferenced, unless the ttl is the largest duration
  (`JwksCache.NilSetCrashIff`).
- The cache never goes back to an older key set. It can iff two goroutines or more share it
  (`JwksCache.OlderSetCanReplaceNewerIff`), and a given run does iff the time from response to Put of one refresh
  contains that of a refresh that Put before it (`JwksCache.RunGoesBackIff`). Its stamp never goes back, and its
  contents by no more than the longest such time (`JwksCache.StampsNeverGoBack`).
- Printing and parsing an expression is the identity exactly on well-formed trees (`ExprSyntax.RoundTrip`).
- A body passes through payload logging unchanged exactly when it reads without error; otherwise the error is lost
  (`BodyMonitor.RoundTrip`).
- All sub-server goroutines end after Start has returned. Any number of them up to all but two can be left parked, so
  the property holds iff there are at most two sub-servers (`ServerStart.CanParkIff`, `ServerStart.ParkedAfterReturn`).
- A Start runs the server list that it installed itself: holds iff one goroutine uses the server, and for one look at
  the field iff nobody has installed since (`AutogenServer.RunsAnotherIff`, `AutogenServer.UnlockedReadIff`).
- A configuration that Validate would accept builds without a crash before it has been through Validate, unless its
  mode is the system mode in other letters and the encoding is missing or lacks its password
  (`TlsConfig.NormalisationMatters`).
- An expression that has not been validated evaluates without a crash, unless the first trouble in evaluation order is
  a missing part (`ExprEval.UnvalidatedCrashIff`).

## Model

| member | source | states |
|---|---|---|
| `TimeoutWriter.BufferedWriter.WriteHeaderLocked` | common/timeout.go:175-190 | an out-of-range code panics and changes nothing; the first valid code sticks; after a timeout nothing changes |
| `TimeoutWriter.BufferedWriter.WriteHeader` | common/timeout.go:192-213 | as above, and the mutex is free on return, on the panic path too |
| `TimeoutWriter.BufferedWriter.Write` | common/timeout.go:163-173 | appends all bytes after committing status 200, or after a timeout returns (0, error) and changes nothing; the mutex is free on return |
| `TimeoutWriter.BufferedWriter.Complete` | common/timeout.go:119-130 | copying the handler's headers in any order, then status, then body, leaves the published reply on the real writer |
| `TimeoutWriter.BufferedWriter.Expire` | common/timeout.go:131-135 | the real writer gets exactly the timeout handler's calls and the buffer is marked timed out |
| `TimeoutWriter.MatchesSnoc` | common/timeout.go:163-190 | each operation keeps the buffer in agreement with the list of operations: first status wins, bytes in order, last header operation per key |
| `TimeoutWriter.PublishIsReply` | common/timeout.go:119-130 | a buffer that agrees with its operations publishes one valid status, all their bytes, and the base headers overridden by the handler's, complete before the status line |
| `TimeoutProtocol.ExactlyOneOutcome` | common/timeout.go:91-137 | in every interleaving: nothing is written before the outcome; the outcome is the reply the operations ask for, the timeout reply, or a re-panic with nothing written; done is closed at most once; neither goroutine keeps the mutex outside its calls |
| `TimeoutProtocol.HandlerNeverTouchesWire` | common/timeout.go:105-115 | only the server's publishing step writes to the real writer, and the handler's panic send never blocks |
| `TimeoutProtocol.SettledOnRuns` | common/timeout.go:116-136 | a finished request keeps outcome and reply for ever; an exited handler keeps its history |
| `TimeoutProtocol.TimeoutIsolation` | common/timeout.go:131-180 | after the deadline branch, on every continuation: the reply stays the timeout handler's, every later write returns (0, error), buffered status and body stay as they were |
| `TimeoutProtocol.NeverStuck` | common/timeout.go:105-136 | no deadlock: once the handler has left or the context is done, the request can move on; the handler waits only for the server's critical section |
| `TimeoutProtocol.SelectIff` | common/timeout.go:116-131 | while the server goroutine selects, the panic branch is open iff the handler left with a panic, the reply branch iff it left without, the deadline branch iff the context has ended |
| `TimeoutProtocol.PublishableIff` | common/timeout.go:106-130 | exactly the operation lists with valid codes, and behind the monitor with no body left open, are published by some run |
| `TimeoutLabels.OutcomeFollowsLabels` | common/timeout.go:105-136 | over every run: what leaves the handler is the one panic in its labels, its own or that of an invalid status code, or behind the monitor the open bodies, and nothing iff there is neither; a run with a panic is never published; a published reply is the one that the operations in the labels ask for, from a handler that returned; the timeout reply needs a deadline |
| `TimeoutLabels.PanicIsPassedOn` | common/timeout.go:107-118 | for each panicking label of a run: no publication, and that panic (or the open bodies) is what the exited handler has thrown |
| `ServerStack.MiddlewareCollection.AddToBoth` | core/middleware.go:34-37 | both lists grow by the same entries, at the end |
| `ServerStack.MiddlewareCollection.Prepare` | core/middleware.go:18-32 | both lists are Recoverer, timeout, request context, then metrics if there is a registry; the public one has traceability before the request context |
| `ServerStack.StackOrder` | core/middleware.go:18-32 | on both servers Recoverer is outermost, the timeout next, and the open-body check inside the timeout |
| `ServerStack.Recover` | core/recoverer.go:14-30 | without a panic the reply is untouched; a panic before anything was written becomes one complete plain-text 500; a later one leaves the status already out in place |
| `ServerStack.RecoveredReply` | core/recoverer.go:28 | on any writer http.Error adds one 500 and the text, keeps headers already out, and on an untouched writer is a complete reply with exactly its two headers on top |
| `ServerStack.TimedOutReply` | core/middleware.go:39-54 | the timeout reply on an untouched writer is one status 500 with the JSON body and exactly its content type on top of the headers there |
| `ServerStack.OneStatusForEveryRun` | core/middleware.go:18-54 | for every handler and interleaving, whatever Recover may leave on the writer, the client gets one status: the handler's, the timeout 500 or the recovered 500, each with its own body |
| `ServerStack.PanicEndsIn500` | core/recoverer.go:14-30 | a run in which the handler panicked ends in one status 500, whatever was written before |
| `ServerStack.OpenBodyNeverPublished` | common/corerequestcontext.go:113-131 | a handler that leaves a monitored body open is never published; the request ends in a 500, and a re-panic names the open bodies |
| `HandlerBodies.MonitorAgrees` | common/corerequestcontext.go:113-131 | for every list of operations the set of open bodies is non-empty iff the round tripper's monitor finds a response left open |
| `HandlerBodies.PublishedOnlyWhenClosed` | common/corerequestcontext.go:113-131 | in every run of the stack a reply is published only when the monitor finds nothing open; otherwise the panic names exactly the open responses |
| `ServerStart.ReturnsFirstSend` | core/serve.go:740-766 | over every run: Start returns how the first sub-server to send ended, nil iff it returned nil, else its error or panic with its number; no sub-server ends or sends twice, none sends before it ended |
| `ServerStart.ParkedAfterReturn` | core/serve.go:744-765 | once no send can complete after Start has returned, all but two of the terminated sub-servers' goroutines are parked |
| `ServerStart.CanParkIff` | core/serve.go:744-765 | some run of n sub-servers ends with p goroutines parked iff n is positive and p is 0 or at most n - 2 |
| `ServerStart.ParkedForGood` | core/serve.go:744-765 | with the channel full after Start has returned, nothing ever empties it |
| `ServerStart.EmptyNeverReturns` | core/serve.go:744-765 | with no sub-server no step is possible and Start never returns |
| `ServerStart.StartNotStuck` | core/serve.go:744-765 | once some sub-server has terminated, Start has returned or can move towards it; a serving one may end in any way |
| `ServerStart.AssembleServers` | core/serve.go:615-683 | which listeners are started, in which order and in which cases it refuses or panics; the health server counts as a gRPC handler and needs a gRPC manager; a list that is started is never empty and holds a public server |
| `ServerStop.SendNeverBlocks` | core/serve.go:768-796 | under every schedule the error channel has room for whoever sends |
| `ServerStop.NeverStuck` | core/serve.go:768-796 | before it has returned, some step of Stop is possible, and a sub-server may answer anything |
| `ServerStop.StopTakesAtMost` | core/serve.go:768-796 | every schedule of n sub-servers has at most 5n+3 steps, so the wait completes |
| `ServerStop.ReportsExactlyTheErrors` | core/serve.go:768-826 | over every run that has returned: each sub-server's Stop returned exactly once; the result is nil iff all returned nil, else a permutation of exactly the errors they returned |
| `AutogenServer.StopsAreExclusive` | core/serve.go:685-725 | no two stops overlap, no stop overlaps an installation, a stop acts on the list written last or on none, and is graceful iff its caller asked for that |
| `AutogenServer.HeldUpOnlyByTheMutex` | core/serve.go:676-725 | every caller inside a call can take its next step, with or without a list in the field; the mutex is free iff nobody is inside |
| `AutogenServer.UnlockedReadIff` | core/serve.go:676-689 | the look that Start takes without the mutex is never nil or torn, and finds its own list iff no other installation has reached the field since |
| `AutogenServer.RunsAnotherIff` | core/serve.go:676-689 | some schedule makes a Start run a list it did not install iff two goroutines use the server |
| `AutogenServer.TornIff` | core/serve.go:685-689 | the field is torn exactly while the first installation is between its two writes, with the mutex held |
| `AutogenServer.TornWithoutLock` | core/serve.go:685-689 | such a state is reached iff there is a goroutine to install |
| `Future.WorkerNeverBlocks` | common/async.go:31-51 | the worker's send is always possible, with or without readers |
| `Future.AtMostOneReceives` | common/async.go:53-81 | at most one caller of Get or GetChan gets the function's outcome; every other result is the context's error, after the context ended |
| `Future.LosersWaitForContext` | common/async.go:53-61 | whoever is waiting when another has taken the outcome blocks until the context ends and can then only return its error |
| `Future.CallerCanMoveIff` | common/async.go:53-61 | a waiting caller can return the context's error iff the context has ended, and can return the outcome iff it was sent and nobody took it |
| `Future.CallersGetWhatTheyTook` | common/async.go:31-81 | over every run: a caller that took the result holds what the function ended with, one that took the context's end its error, nobody both; a GetChan reader gets what its goroutine took |
| `Future.ChanIsServed` | common/async.go:71-81 | what the goroutine of GetChan received it can pass on at once, unchanged |
| `Future.StrandedIff` | common/async.go:53-61 | m callers can leave one waiting for the context although the outcome was sent iff m is at least 2 |
| `Future.OutcomeIsNotLost` | common/async.go:53-61 | as long as nobody has taken it, the sent outcome can be taken by any waiting caller |
| `ExprSyntax.ParseExprSound` | authexpr/expr.go:21-46 | what the parser accepts is the print of the tree it returns, followed by the rest |
| `ExprSyntax.ParseExprComplete` | authexpr/expr.go:21-46 | every print of a tree of the grammar is parsed, as that tree, whatever follows |
| `ExprSyntax.Unambiguous` | authexpr/expr.go:11-46 | a token list has at most one tree, down to the optional commas, and the parser finds it |
| `ExprSyntax.TrailingCommasDoNotMatter` | authexpr/expr_test.go:74-84 | trees that differ only in optional commas parse to the same expression |
| `ExprSyntax.ReprExpr` | authexpr/expr.go:165-174 | prints the one alternative that is set, panics otherwise |
| `ExprSyntax.ReprOp` | authexpr/expr.go:176-182 | the loop over the arguments fills the list that is joined |
| `ExprSyntax.ReprAtom` | authexpr/expr.go:184-194 | the same for literals, with a panic on a literal without its string |
| `ExprSyntax.RoundTrip` | authexpr/expr.go:152-194 | parsing the print of an expression gives it back iff it is well formed |
| `ExprSyntax.ReprIsCanonical` | authexpr/expr.go:165-194 | the print of a parse parses to the same expression, however many optional commas the input had |
| `ExprEval.Evaluate` | authexpr/expr.go:105-110 | dispatches to the alternative that is set |
| `ExprEval.EvaluateOp` | authexpr/expr.go:112-141 | evaluates all arguments in order, returns the first error, and only then looks at the operator |
| `ExprEval.ValidIffSound` | authexpr/expr.go:48-99 | Validate accepts exactly the expressions that have a meaning |
| `ExprEval.ValidateBlamesFirst` | authexpr/expr.go:48-99 | validation of any expression ends as the first problem in reading order says: that error, the invariant panic, or acceptance iff there is none |
| `ExprEval.EvalMeaning` | authexpr/expr.go:105-150 | a validated expression never panics: it yields the leftmost scope query's error, and without one the boolean meaning of all, any and not |
| `ExprEval.CompiledIsSound` | authexpr/expr.go:152-163 | compilation never panics and accepts exactly what parses and has a meaning |
| `ExprEval.EvalMeetsFirst` | authexpr/expr.go:105-150 | evaluation of any expression, validated or not, ends as the first trouble in evaluation order says |
| `ExprEval.UnvalidatedCrashIff` | authexpr/expr.go:105-150 | some queries crash the evaluation iff, with every query answered, the first trouble in evaluation order is a missing operator and atom, "not" without argument or an atom without its string; never for a sound expression |
| `ExprEval.Monotone` | authexpr/expr.go:112-141 | without "not", an expression true of some scopes is true of any larger set |
| `Scope.SplitFindsWords` | authexpr/eval_context.go:7-36 | the split list holds a query iff it is free of spaces and stands in the claim between spaces or the ends |
| `Scope.ScanScopes` | authexpr/eval_context.go:26-31 | the scan answers that question |
| `Scope.RuleMeaning` | core/authrules/jwtclaimsrule.go:22-34 | a compiled rule applied to claims never errs and answers whether its meaning holds of the scopes the claims grant |
| `Scope.MoreScopesKeepAccess` | authexpr/eval_context.go:7-36 | a rule without "not" that holds of some claims holds of all claims that grant at least their scopes |
| `JwksCache.KeyCache.GetKey` | jwtauth/remote.go:135-142 | expired, nil dereference or exactly the keys with that id; a hit is at most ttl old |
| `JwksCache.KeyCache.Put` | jwtauth/remote.go:144-149 | set and stamp are replaced together |
| `JwksCache.AcceptedKeysAreFresh` | jwtauth/remote.go:68-104 | in every run an accepted token was checked with the first key of its id in a set fetched during that call, or Put at most ttl before and served at most ttl plus the longest delay before |
| `JwksCache.NilSetCrashIff` | jwtauth/remote.go:127-142 | some run dereferences the nil set iff the ttl is the largest duration |
| `JwksCache.HitIff` | jwtauth/remote.go:135-142 | a lookup is answered from the cache iff a set was Put and at most ttl has passed |
| `JwksCache.OnlyPutChangesCache` | jwtauth/remote.go:106-149 | a refresh that succeeds, in the background or for a token, stores that very set with the present time; nothing else changes the cache |
| `JwksCache.PutServesVerify` | jwtauth/remote.go:68-149 | after a Put, until the next one and within ttl, every token that any idle goroutine verifies is judged at once by the set that was Put |
| `JwksCache.VerdictIff` | jwtauth/remote.go:68-104 | both ways: accepted with these claims iff the first key of that id yields them, bad signature iff it does not, no matching key iff there is none, bad headers iff not one key id |
| `JwksCache.NobodyWaits` | jwtauth/remote.go:53-125 | an idle goroutine may verify or refresh, an answer may be anything or fail, a set that came can be Put |
| `JwksLabels.RunIsItsLabels` | jwtauth/remote.go:34-149 | over every run the clock, the cache, the response-to-Put windows with the longest of them, and the whole list of verdicts are what the labels say: each token judged by the fresh set in the cache, else by the set then served to that goroutine |
| `JwksCache.StampsNeverGoBack` | jwtauth/remote.go:53-63 | over every run the stamp never decreases, and the served time of the contents falls by at most the longest delay |
| `JwksCache.RunGoesBackIff` | jwtauth/remote.go:106-125 | a run replaces a newer set by an older one iff some response-to-Put window contains that of an earlier Put |
| `JwksCache.OlderSetCanReplaceNewerIff` | jwtauth/remote.go:106-125 | for every ttl and signature check, some run does so iff two goroutines or more share the cache |
| `Authorization.VerifierFromIssuerConfig` | jwtauth/config.go:54-59 | a verifier is made iff there is a URL, it parses and the ttl is not zero |
| `Authorization.AuthFromConfig` | jwtauth/config.go:22-43 | succeeds iff every name is non-empty, unique and usable, with exactly one verifier per name, its own; otherwise reports the first bad entry and why |
| `Authorization.AuthenticatedIff` | jwtauth/authenticate.go:35-77 | claims come back iff the token parses, is in time, names a configured issuer and that issuer's own verifier accepted it with those claims |
| `Authorization.RuleDecides` | core/authrules/jwtclaimsrule.go:62-81 | for every rule: access iff the token is vouched for with claims of which the rule says true; false, an error or a panic of the rule each become their own denial, and every denial leaves the context as it was |
| `Authorization.GrantedIff` | core/authrules/jwtclaimsrule.go:62-81 | access is granted iff such claims exist and the rule's meaning holds of them; the returned context carries exactly those claims, and without access is the one given; every refusal has the one reason that applies first: unparsable, no claims, out of time, no such issuer, or that issuer's verdict; a failed rule iff claims exist that do not satisfy it |
| `Authorization.GrantedOnFreshKeys` | core/authrules/jwtclaimsrule.go:62-81 | for one signature check, one reached state of each issuer's key cache, one moment and one verdict: granted access rests on that verdict of the issuer named in the token, with a key of that issuer that passed the check and is fresh at that moment |
| `BodyMonitor.CloseBody` | common/internal/unclosedresponsebodymonitor.go:109-112 | closing marks every wrapper of the chain and closes the stream at its bottom |
| `BodyMonitor.Monitor.AddResponse` | common/internal/unclosedresponsebodymonitor.go:58-68 | the body is wrapped once more, in a fresh open wrapper that is recorded last |
| `BodyMonitor.Monitor.GetResponsesWithOpenBodies` | common/internal/unclosedresponsebodymonitor.go:70-81 | the wrappers at exactly the positions that are open, each once and in order |
| `BodyMonitor.Monitor.Check` | common/internal/unclosedresponsebodymonitor.go:31-49 | panics iff some recorded wrapper is open, naming the URLs of all of them in order |
| `BodyMonitor.RequestLogger.constructor` | common/internal/requestlogger.go:83-100 | a non-GET body is drained, closed and replaced by its bytes when payloads are logged, and left alone otherwise |
| `BodyMonitor.RequestLogger.LogResponse` | common/internal/requestlogger.go:36-46 | the response body is drained, closed through all its wrappers and replaced by its bytes |
| `BodyMonitor.RoundTrip` | common/internal/roundtripper.go:23-47 | request and response bytes pass through; they pass unchanged, error included, iff not logged or readable without error; how the monitor's list grows in each case |
| `BodyMonitor.Session` | common/internal/unclosedresponsebodymonitor.go:31-81 | over any sequence of round trips and closes, the final check panics iff payloads are not logged and some response was left open |
| `TlsConfig.TrustedCertPoolConfig.Validate` | config/tls.go:605-642 | outcome and the fields left behind, also on failure |
| `TlsConfig.TLSConfig.Validate` | config/tls.go:481-559 | outcome and the configuration left behind; nil is accepted |
| `TlsConfig.ValidateAccepts` | config/tls.go:481-642 | accepts exactly the acceptable configurations and changes only letter case of mode and encoding |
| `TlsConfig.ReportsFirstProblem` | config/tls.go:481-642 | a problem that is reported is there, and none that comes earlier in the order is; the first bad identity is the one meant; what a failing Validate leaves behind |
| `TlsConfig.ValidateIdempotent` | config/tls.go:605-642 | validating again finds the same and changes nothing |
| `TlsConfig.ListDirectory` | config/tls.go:251-256 | exactly the entries that are not directories, each once, in order, under the path |
| `TlsConfig.BuildFrom` | config/tls.go:274-297 | the certificates of the files that load, in order; fails iff there are files and none loads |
| `TlsConfig.VersionsIff` | config/tls.go:124-143 | with known names, fails iff an oldest version is set and the newest is unset or older; otherwise each version is its number, or zero if unset |
| `TlsConfig.TLSCiphers` | config/tls.go:145-163 | fails on more names than the table has or on an unknown one, else each name's entry |
| `TlsConfig.OurIdentityCertificates` | config/tls.go:189-238 | one certificate chain per identity that names a pair or a store, in order, or the first failure |
| `TlsConfig.ReadyIdentities` | config/tls.go:189-238 | the identities of a validated configuration load iff the environment holds a chain for each, and then the result is, index by index, the chain held for that identity |
| `TlsConfig.ReadyPool` | config/tls.go:349-388 | a validated pool never crashes the builder and fails only for an unknown mode or for want of files |
| `TlsConfig.MakeAfterValidate` | config/tls.go:408-478 | after Validate no nil dereference; the default path fails iff min exceeds max, more than 26 ciphers are listed, the mode is unknown, or the environment withholds what is named, and says which |
| `TlsConfig.SettingsCarryConfig` | config/tls.go:390-478 | versions and, index by index, one chain per identity are those the configuration names, on both paths; on the default path ciphers, policies and the trusted certificates as well: the system's, or those of the file or of exactly the listed files of the directory, piece by piece; a self-signed build leaves them unset and an insecure one carries only its flag |
| `TlsConfig.NumbersFollowVersions` | config/tls.go:49-54 | the version numbers are consecutive from 0x0301 and ordered as the versions are |
| `TlsConfig.NormalisationMatters` | config/tls.go:349-388 | an acceptable configuration crashes the default path before it has been through Validate iff its mode is the system mode in other letters and the encoding is missing, or is PKCS12 without a password; with any other mode Validate makes no difference to the result |
| `TlsConfig.HiddenSystemModeCrashes` | config/tls.go:369-388 | such configurations exist |

## Left out

- The lexer, `strconv.Quote` and participle's own machinery: expressions are token lists, string literals opaque, the struct tags the grammar.
- How net/http treats what reaches the real writer: informational 1xx codes, bodies of statuses without one, headers after the status line.
- `timeoutWriter.Push`, logging, and the response-writer wrappers of chi and of the metrics between handler and buffer: the operations are those that reach the buffer.
- A timeout handler that itself panics: it is a list of calls on the real writer.
- `panic(nil)`, which `recover` reports as no panic: panic values are non-nil throughout.
- A sub-server whose Stop panics or never returns: the first ends the process, the second the guarantee that Stop returns.
- The health server's own work and the listeners' configuration in `autogenServer.Start`: whether they could be made is an input.
- Signature checks, claim times, HTTP and JSON: functions of the environment, or outcomes chosen at each step.
- RoundTrip: the response's stream is taken to be another object than the request's, as with any real transport.
- Copying of claims by a JSON round trip in `jwtauth/claims.go`: claims are values.
- `InsecureAuthenticator`, `jwtauth/jwthttp` and the bearer-header parsing: they would only add easy members.
- `MakeTLSConfig` of nil, which is nil without an error: the builder is modelled on configurations.
- Non-ASCII letter case in `strings.ToLower`; the difference between a nil and an empty cipher list in the first comparison of Validate.
- The names in the tables for ciphers, versions, client authentication and renegotiation: a name is its table entry or none.
- The Windows branch of `GetTrustedCAs`, PEM, PKCS12 and X509 decoding, file reads: functions of the environment.
- `FlushLog`'s log lines and the second-flush message: only the flag is kept.
- Error-kind tables, restlib, convert, jsontime, log, metrics, code generation and generated code: single-branch mappings or thin wrappers.
