# sing-box in Dafny

A model of the stateful parts of sing-box, and proofs about them:

- **The DNS rule walk.** A query walks an ordered rule list while exchanges are in flight; race rules
  are armed and swept as answers arrive, and a blocked walk is resumed through a wake channel of
  capacity one. The walk is measured against a plain reading of the list that waits at every
  `evaluate`. For every schedule of answers the reply is that of a *winner*, a rule characterised on
  the reading alone; every winner is brought about by some schedule; and the walk always ends, having sent
  exactly what the rules it has passed send in the reading, besides speculative routes and the exchange it
  commits to, no rule twice, and having cancelled every exchange of its own. Rule lists come from
  configured rule trees, which a validator accepts or refuses and a mode resolver puts in or out of
  legacy mode; a list that is accepted can be walked.
- **The DNS client.** Time to live, the response cache with stale serving and background refresh, the
  client subnet in messages and cache keys, and the lock that keeps identical exchanges apart.
- **The daemon.** Start, reload, interruption and close of the service; the connection event stream
  and the client that folds it; the chunked file reader; the log ring.
- **Start-up and storage.** Transports started in dependency order, and the saved form of a rule set.

| file | about |
|---|---|
| `DnsRules.dfy`, `SequentialReading.dfy` | rules, actions and options; the plain reading and its winners |
| `WalkState.dfy`, `WalkSteps.dfy`, `RuleWalk.dfy` | the walk's bookkeeping, what each step keeps, the walk itself |
| `TornReads.dfy` | what an answer between two reads does |
| `RuleTrees.dfy`, `RuleValidation.dfy`, `RuleModes.dfy` | configured rules, their validation, legacy mode |
| `AcceptedQueries.dfy` | from a configured list to the reply |
| `TimeToLive.dfy`, `ResponseCache.dfy`, `SingleFlight.dfy` | the DNS client's cache and lock |
| `ClientSubnet.dfy`, `SubnetMessages.dfy` | the client subnet, by value and on shared records |
| `Lifecycle.dfy`, `ConnectionStream.dfy`, `Taildrop.dfy`, `LogRing.dfy` | the daemon |
| `TransportStart.dfy`, `SavedBinary.dfy` | start-up and storage |

`dafny verify dfyconfig.toml` checks everything.

## How the concurrent parts are modelled

*Rule walk.* What an exchange answers is a function of the rule that sent it, its transport and its
options; *when* it answers, and when it then posts its wake token, is an arbitrary schedule. The walk is a
class. A step is one look at a rule, one round of the resume loop or one moment of being blocked; within a
step time goes on, and a sweep looks at every armed rule at a moment of its own. A schedule is *steady* if
nothing answers in the middle of a step. Winners are defined for steady schedules and for all.

The code delivers responses once per step (dns/router.go:535) and reads later which exchanges have answered
(dns/router.go:597, 634 and 818). An exchange that answers in between is found answered, but its response is
not shown. In the model a look delivers what has answered by then, and a query says for each rule which tags
are `late`, that is, not shown to it; `TornReads.GapIsLate` proves that matching on what was delivered
earlier is the same. The reading hides late tags as well, and it is the plain reading when there are none. A
rule that is held back for race rules is looked at again, and may then be shown more than before; in a
`fickle` step it is held back whatever it will be shown later. So nothing is assumed about when exchanges
answer.

That a rule's match reads only the responses it binds is proved for accepted rules
(`RuleValidation.AcceptedMatch`). The table of transports does not change during a walk. Where the query's
context may end, `cancellable` says so, and the reply may then also be the context's error.

*Lock and lifecycle.* State machines over the atomic accesses of any number of concurrent calls; the
theorems are about every run.

*Cache, streams, readers.* Classes; time is a parameter that does not decrease, and evictions are
arbitrary.

## Findings

Where a promised property does not hold of the code, the condition under which it does is part of the
statement:

- A rule can be lost if an exchange it binds under a tag answers between `settleDNSFutures` and the check
  that it has answered, be it the rule the walk stands at or an armed rule in a sweep: it is shown what the
  plain reading shows exactly if every such exchange with a message had answered before
  (`TornReads.TornViews`, `TornReads.TornArmedViews`, `TornReads.LostRule`).
- A sweep need not commit the first race rule in the list that has its answers: it looks at one rule after
  the other, and a later rule wins if the answer comes in between (`TornReads.Overtaken`). It commits the
  rightful one exactly if no earlier armed rule that commits could do with the same answers
  (`TornReads.SweptInOrder`).
- Items on response fields read the anonymous response even in a rule that does not bind it
  (`RuleTrees.UnboundFieldIsRead`); it is the validator that rules such rules out
  (`RuleValidation.AcceptedFieldsAreBound`).
- Rule-set updates that overlap can leave the router in a mode its rules no longer allow, since checking
  and taking up an update are two steps (`RuleModes.OverlappingUpdatesMayClash`). When they do is
  `RuleModes.OverlapIsHarmless`; of the two updates, one has to drop the query types of its set
  (`RuleModes.ClashDropsQueryTypes`). Updates one after another cannot (`RuleModes.UpdatesKeepMode`).
- A client follows the service's open connections exactly if no connection was listed both as active and
  as closed when the stream began (`ConnectionStream.OpenIsRemembered`, `ConnectionStream.LostAtTheStart`).
  At every moment the total of a connection whose counters never fell equals the counters last seen
  exactly if the two counter loads at its announcement agreed (`ConnectionStream.TotalsAreExact`,
  `ConnectionStream.UnequalLoads`).
- A service that is shut down while a reload waits can come to rest STARTING: some run of given calls does
  if and only if there are two starts and a shutdown among them (`Lifecycle.StrandedIff`).
- An error that is reported while `CloseService` closes a service that says STARTING but has no instance, since
  a start has just given way to it, is overwritten with IDLE: neither order of the two calls leads there. Apart
  from that, whenever the lifecycle mutex is free the service is as if calls and errors had come one after the
  other (`Lifecycle.AsIfInTurn`, `Lifecycle.LostIff`).
- An asynchronous exchange that finds another one under way starts over, and can then be at the transport
  before the other has closed its channel; one that may wait never is (`SingleFlight.OnlyWaitersNeverOvertake`).
- A subnet that is an IPv4-mapped prefix is not read back from the message it was set in
  (`ClientSubnet.KeyIsWhatIsSent`).
- Writing a time to live into a negative response and reading it back is capped by the SOA minimum
  (`TimeToLive.NormalizeThenCompute`).

## Model

| member | source | states |
|---|---|---|
| DnsRules.ApplyDNSRouteOptions | dns/router.go:371-395 | flags only turn on, a TTL or timeout that is given wins, the strategy stays, setting or removing the subnet undoes the other, so that the two wishes are never both there; and it is the merge the reading uses |
| DnsRules.ApplyTwice | dns/router.go:371-395 | two rules' options in a row are those of one combined rule, on every query |
| DnsRules.ResolveDNSRoute | dns/router.go:405-419 | missing iff there is no such server, skipped iff it is a fake-IP server the query may not use; else resolved to that server, with every field of the options given, the cache off for fake addresses; unless resolved the options are unchanged |
| SequentialReading.CommittedHasOneSubnetWish | dns/router.go:371-419 | no exchange any rule commits to asks both to set and to remove the client subnet |
| SequentialReading.CommittedDoes | dns/router.go:685-767 | a rule commits iff it matches and replies, or routes to a server that is there and may be used; and what each then does, by its action: a route goes to its own server under the options merged with its own, a `respond` answers with the message and server of its exchange or the error, the rest reply as written; an exchange is sent with the default strategy iff none is set, and the reply is its message or its error, with the server |
| SequentialReading.RuleReads | dns/router.go:648-654 | a rule is judged on exactly the messages of the exchanges it binds that brought one and are not late |
| SequentialReading.RuleLeaves | dns/router.go:655-684 | what each rule leaves for those after it, by its action: merged options, or one exchange to its server under its tag or anonymously, or nothing |
| SequentialReading.StopIndex | dns/router.go:585-767 | the rule at which the plain reading stops is the first that commits, and the default route if none does |
| SequentialReading.SequentialStops | dns/router.go:580-768 | the plain, waiting evaluator returns the decision of the first committing rule, from any rule on |
| SequentialReading.SequentialIsWinner | dns/router.go:580-768 | the plain reading's rule is always among the winners |
| SequentialReading.LoneRaceIsDeterministic | dns/router.go:580-900 | if at most one race rule commits ahead of the first committing ordinary rule, the only winner is the plain reading's rule |
| WalkState.TagIsFresh | dns/router.go:662-684 | in a well-formed list a rule that evaluates under a tag never finds that tag registered, so an entry of namedFutures is never overwritten |
| WalkState.BoundTagsAreStable | dns/router.go:662-684 | a tag a rule binds means the same exchange from that rule on, for the rest of the list |
| WalkState.MatchAgrees | dns/router.go:648-654 | with all bound exchanges answered and delivered, the walk's match of the current rule is the plain reading's |
| WalkState.ArmedWithoutAnonymous | dns/router.go:856-859 | a ready armed `respond` rule that answers with the anonymous response and armed none finds none now: the fallback to the current one is never taken |
| WalkSteps.SweptRuleWins | dns/router.go:812-900 | the first armed rule found ready and committing is a winner; it is one among steady schedules if the rules ahead of it are still not ready with its own answers in |
| WalkSteps.HeldRuleWins | dns/router.go:686-738 | an ordinary rule that commits with nothing armed is a winner |
| WalkSteps.MustAnswerIsAnswered | dns/router.go:585-672 | whatever must have been answered by the time a rule commits, or is overtaken, has been, in every sound walk |
| RuleWalk.Walker.Tick | dns/router.go:521-529 | as a step begins, an exchange whose token falls due leaves a token in the wake channel; tokens are not lost and the debt of tokens does not grow |
| RuleWalk.Walker.AwaitWake | dns/router.go:795-801 | blocking is allowed only if the wake channel exists and holds a token or some exchange has yet to post one; it ends, and the debt shrinks |
| RuleWalk.Walker.Launch | dns/router.go:508-531 | a new exchange is recorded last and unsettled, and the wake channel exists afterwards |
| RuleWalk.Walker.Settle | dns/router.go:533-554 | every exchange that has answered is settled and its response filed under its tag, and nothing else changes |
| RuleWalk.Walker.Cancel | dns/router.go:556-560 | every exchange but the wanted one is cancelled |
| RuleWalk.Walker.MatchRule | dns/router.go:648-654 | matches iff the reading of that rule matches, late tags hidden |
| RuleWalk.Walker.FirstUnresolved | dns/router.go:631-646 | none iff everything the rule binds has been answered; otherwise one of the bound, unanswered exchanges |
| RuleWalk.Walker.PendingFutures | dns/router.go:591-607 | exactly bound and unanswered exchanges, and all of them |
| RuleWalk.Walker.ArmRule | dns/router.go:595-618 | the race rule is armed last, with what it waits for and the options of that moment |
| RuleWalk.Walker.RaceRule | dns/router.go:590-630 | passing a race rule keeps the walk sound; if it is idle, the sweep may end the walk with a winner, and if it does not, no rule passed fires in it |
| RuleWalk.Walker.ActEvaluate | dns/router.go:662-684 | a query is sent, under the rule's tag or anonymously, unless it must be held back because a race rule is armed and it is not speculative |
| RuleWalk.Walker.RespondReply | dns/router.go:689-715 | the reply is the reading's: the response and transport of the exchange the rule answers with, or the error |
| RuleWalk.Walker.ActRespond | dns/router.go:685-715 | waits while a race rule is armed or its exchange is unanswered; otherwise ends the walk as a winner |
| RuleWalk.Walker.HoldRoute | dns/router.go:726-734 | a held route is sent early only if it is speculative and the first such, and nothing else moves |
| RuleWalk.Walker.HoldBack | dns/router.go:671-734 | a rule that matches only for now waits for armed rules all the same, and a speculative route among them is sent early; the walk stays sound |
| RuleWalk.Walker.CommitRoute | dns/router.go:735-738 | the exchange sent early for the rule is reused if there is one; it is to be sent exactly if no exchange of the walk is of that rule |
| RuleWalk.Walker.ActRoute | dns/router.go:716-738 | a missing or excluded server passes the rule by; otherwise the route is held or committed as a winner |
| RuleWalk.Walker.ActOptions | dns/router.go:660-661 | the options are merged and the rule passed |
| RuleWalk.Walker.WalkRule | dns/router.go:585-763 | one rule: passed with the invariant kept, or the walk ends with a winner, or it suspends where it stands |
| RuleWalk.Walker.DefaultRoute | dns/router.go:764-767 | past the last rule: wait for armed rules, else the default server as a winner |
| RuleWalk.Walker.WalkRules | dns/router.go:580-768 | a walk from any sound state ends with a winner or suspends for a reason that can pass; under a schedule favouring a winner a first walk delivers it, and under one catching a sweep for it delivers it or halts just before that sweep |
| RuleWalk.Walker.JudgeArmed | dns/router.go:828-897 | an armed rule that is ready is judged as the reading judges it where it was armed, with the options of that moment |
| RuleWalk.Walker.Sweep | dns/router.go:812-900 | comes to the first armed rule that commits and has its answers in when it is looked at, each rule at its own moment, and to nothing iff there is none; that rule is a winner; none of those left armed was ready when the step began |
| RuleWalk.Walker.FinishPending | dns/router.go:902-926 | the reply of the committed exchange, which is sent now or was in flight, all others cancelled and no rule sent twice; or the context's error if the context may end and it was in flight |
| RuleWalk.Walker.HandOver | dns/router.go:936-946 | the asynchronous shortcut delivers the same reply, with everything cancelled and the committed exchange sent once |
| RuleWalk.Walker.Poll | dns/router.go:783-790 | settling and sweeping between waits comes to exactly what the sweep comes to, a winner; otherwise nothing left armed was ready when the step began |
| RuleWalk.Walker.Wait | dns/router.go:795-802 | blocks if and only if what the suspension waits for is outstanding, and then only with a wake-up owed |
| RuleWalk.Walker.Resume | dns/router.go:780-810 | the resume loop ends, with a permitted reply, every exchange of the walk cancelled, and no rule sent twice, the committed exchange included; what its first sweep comes to is the reply |
| RuleWalk.FavouringSchedule | dns/router.go:508-531 | for every rule there is a steady schedule that answers at once exactly what it needs |
| RuleWalk.CaughtEnds | dns/router.go:780-900 | whoever ends a walk under a schedule that answers just before the sweep looks at a race rule, is that rule |
| RuleWalk.BringingSchedule | dns/router.go:580-900 | every winner is brought about by some schedule, and every winner among steady ones by a steady one |
| RuleWalk.PermittedDoes | dns/router.go:770-926 | every permitted reply is, spelled out by action, what some winning rule does and replies, and the exchange it commits to is among those sent |
| RuleWalk.LoneRaceReply | dns/router.go:580-900 | if at most one race rule commits ahead of the first committing ordinary rule, every possible reply is the reading's, and so is the exchange, with its options, that it comes from |
| RuleWalk.RacelessReply | dns/router.go:580-900 | so it is without race rules |
| RuleWalk.ExchangeWithRules | dns/router.go:770-778 | for every schedule: the reply is that of a winner; what was sent is exactly what the rules passed send in the reading, speculative routes and the committed exchange, no rule twice; every exchange of the walk is cancelled; and under a schedule that brings a winner about it is that winner's reply |
| RuleWalk.ExchangeWithRulesAsync | dns/router.go:928-951 | the same for the callback form |
| TornReads.TornViews | dns/router.go:589-652 | the rule the walk stands at is shown the plain reading's responses iff every tagged exchange it binds that has a message had answered when responses were delivered |
| TornReads.TornArmedViews | dns/router.go:783-841 | the same for every armed rule that a sweep judges |
| TornReads.LostRuleMisses | dns/router.go:589-654 | a state of the books in which that rule, standing or armed, has all it waits for and does not match what was delivered, though it matches in the plain reading |
| TornReads.LostRule | dns/router.go:589-654 | a list and a schedule for which a rule, ordinary or armed, has its answer and does not commit, so that the default server wins, which otherwise it cannot |
| TornReads.GapIsLate | dns/router.go:533-654 | a rule matched later than responses were delivered, on what was delivered, is matched on everything but the tags that answered since |
| TornReads.SweptInOrder | dns/router.go:812-841 | an armed rule that commits is a winner among steady schedules iff no armed rule ahead of it that commits could do with the answers it needs |
| TornReads.Overtaken | dns/router.go:812-841 | two race rules that need the same answer, of which the later can win, and only if it comes in the middle of a sweep |
| RuleTrees.MatchReadsOnlyBound | route/rule/rule_dns.go:446-461 | if items on response fields are only in rules that bind a response, a rule tree's match depends only on the responses it binds |
| RuleTrees.MatchMeans | route/rule/rule_abstract.go:204-245 | a logical rule matches iff all, or some, of its sub rules do, turned around if inverted; a rule on a response is decided by inversion without it and else by that very response |
| RuleTrees.BindingsAreNamed | route/rule/rule_dns.go:523-530 | a tree binds exactly the responses that the leaves among its nodes name |
| RuleTrees.NodesAre | route/rule/rule_dns.go:513-522 | the nodes are the tree and the nodes of its sub rules |
| RuleTrees.UnboundFieldIsRead | route/rule/rule_item_response_rcode.go:21-22 | a rule for which it does not, since it has such an item and binds nothing |
| RuleTrees.Unique | route/rule/rule_dns.go:530-530 | deduplicating the tags keeps exactly the tags, each once |
| RuleTrees.CompiledMatch | route/rule/rule_dns.go:484-530 | then what the walk shows a rule is enough: the match equals that on all responses that are not late |
| RuleTrees.CompileKeeps | route/rule/rule_dns.go:496-535 | a built rule keeps race and action, binds what the tree names and answers with the tag of a single rule |
| RuleValidation.UseIsBinding | dns/router.go:1613-1673 | the tags the validator sees are those the built rule binds; and it sees an anonymous use iff the built rule binds the anonymous response or some node answers with it |
| RuleValidation.TreeUseSpec | dns/router.go:1613-1673 | a tree is refused iff some node is refused, and the reason given is that of such a node |
| RuleValidation.AcceptedFieldsAreBound | dns/router.go:1613-1673 | a tree that is not refused has items on response fields only where a response is bound |
| RuleValidation.AcceptedMatch | route/rule/rule_dns.go:446-461 | so the walk's match of an accepted rule is that of its tree on all responses that are not late: all or some of the sub rules, turned around if inverted; a leaf is asked about exactly the response it names, and decided by inversion if that is missing; race, action and respond tag are those configured |
| RuleValidation.CheckReferences | dns/router.go:1560-1565 | accepted iff all tags are defined, and then exactly these are referenced |
| RuleValidation.CheckRule | dns/router.go:1551-1582 | a rule is refused iff it reads what no earlier rule evaluates or evaluates a tag again, and the error names such a tag or reason |
| RuleValidation.AddWarnings | dns/router.go:1545-1575 | exactly the warnings due up to that rule: useless `speculative`, and overwritten anonymous responses |
| RuleValidation.Unreferenced | dns/router.go:1584-1588 | exactly the tags that are defined and never referenced |
| RuleValidation.Validate | dns/router.go:1529-1590 | accepted iff every rule is acceptable, with exactly the warnings due; a refusal is for the first rule that is not, and its error is one that holds of that rule |
| RuleValidation.ExplainedIsRefused | dns/router.go:1551-1582 | a rule is refused exactly if some error holds of it |
| RuleValidation.AcceptedIsWellFormed | dns/router.go:1529-1590 | an accepted list compiles to rules whose bound tags are set by earlier rules only, and only once |
| AcceptedQueries.AnswerQuery | dns/router.go:1191-1215 | a list is walked iff it is acceptable, and then to a permitted reply, every exchange of the walk cancelled and no rule sent twice; a refusal names a rule and a reason that holds of it |
| AcceptedQueries.AcceptedRacelessReply | dns/router.go:580-900 | in an accepted list without binding race rules, every possible reply, and the exchange it comes from, is the reading's |
| RuleModes.TreeFlagsSpec | dns/router.go:1460-1509 | the flags of a tree are exactly what some node of it asks for, read off its options and items, and an error iff a rule set is missing |
| RuleModes.ModeSpec | dns/router.go:1434-1446 | legacy iff some node needs it and none disables it; an error iff a set is missing or a strategy meets a disabling node |
| RuleModes.Router.Start | dns/router.go:132-226 | starts iff the mode resolves, the list passes validation unless it is legacy, and the rules can be built; then in the resolved mode; otherwise, or while closing, nothing changes |
| RuleModes.Router.ValidateUpdate | dns/router.go:234-283 | a running router accepts an update iff it agrees to it, which is iff its rules can run in the current mode with it in place; a closing one accepts anything |
| RuleModes.Router.UpdateRuleSet | route/rule/rule_set_local.go:140-149 | a rule set takes new metadata iff the router agrees; the result is one step of a run of updates, and the router keeps running in an allowed mode |
| RuleModes.UpdatesKeepMode | dns/router.go:234-283 | over any sequence of updates, each decided as the router decides it: every set stays known; in legacy mode no node of any rule disables it; outside it the mode resolves the same from the nodes, and the list passes validation |
| RuleModes.AgreesRunsWell | dns/router.go:234-283 | the router's decision, by candidate mode and flags, is exactly whether the nodes allow the current mode |
| RuleModes.OverlapIsHarmless | route/rule/rule_set_local.go:140-149 | any number of updates checked against each other's old content are harmless together iff the router runs in legacy mode, or some node disables it, or no node needs it |
| RuleModes.OverlappingUpdatesMayClash | route/rule/rule_set_local.go:140-149 | two updates that are each acceptable and together are not |
| RuleModes.ClashDropsQueryTypes | route/rule/rule_set_local.go:140-149 | two updates outside legacy mode clash only if one drops the query types of its set and some node needs legacy mode under the other |
| TimeToLive.ShortestIsLeastPositive | dns/client.go:207-217 | the scan yields the least positive TTL of the non-OPT records, 0 iff none is positive |
| TimeToLive.ShortestIgnoresOrder | dns/client.go:207-217 | the order of the records does not matter |
| TimeToLive.ExtractNegativeTTL | dns/client.go:186-198 | none iff there is no SOA record, else the lesser of TTL and minimum of the first |
| TimeToLive.ComputeTimeToLive | dns/client.go:200-218 | the lesser of TTL and minimum of the first SOA for an empty answer with an SOA, else the least positive TTL of the non-OPT records |
| TimeToLive.TimeToLiveMeans | dns/client.go:200-218 | the same of the value that the cache laws speak of |
| TimeToLive.NormalizedCarries | dns/client.go:220-229 | with a TTL written, a message has the same code and the same records, all but OPT records with that TTL |
| TimeToLive.NormalizeTTL | dns/client.go:220-229 | in place, every non-OPT record of the three sections gets the TTL, and kind and data of every record stay |
| TimeToLive.NormalizeThenCompute | dns/client.go:647-670 | writing a TTL and reading it back agrees iff it is 0, or some non-OPT record carries it, or for a negative response it does not exceed the SOA minimum; otherwise the minimum is read, or 0 |
| ResponseCache.FinishKeyIsOrigin | dns/client.go:133-140 | an answer may be filed exactly under keys of its origin; begun in a known environment it is filed there or nowhere |
| ResponseCache.StoredIsProper | dns/client.go:359-384 | what is stored is NOERROR or NXDOMAIN with a positive TTL on all its records, under a key of its origin |
| ResponseCache.StoredMeans | dns/client.go:359-384 | an answer is stored iff it is NOERROR or NXDOMAIN, passes the check, has a positive lifetime and arrives in the environment it was asked in, if known; then under the query's question, server and subnet, with its own records at the chosen TTL |
| ResponseCache.ServedTTLs | dns/client.go:587-619 | a served answer is NOERROR or NXDOMAIN with the records of a store under that key; fresh, its TTLs are the whole seconds left; stale, they are 1 |
| ResponseCache.LeftFits | dns/client.go:615-618 | the whole seconds left are between 0 and the stored TTL, and are the floor of the time left |
| ResponseCache.LeftShrinks | dns/client.go:615-618 | a later look never shows more time left, and less after a second |
| ResponseCache.Client.StoreCache | dns/client.go:516-536 | a TTL of 0 stores nothing; otherwise the entry is there with its expiry, and the record of stores grows by it |
| ResponseCache.Client.LoadResponse | dns/client.go:587-619 | serves iff the entry is fresh or within the optimistic timeout, from the latest store under that key; an entry past it is removed |
| ResponseCache.Client.Serve | dns/client.go:306-321 | stale answers only where the query allows them, each starting a refresh iff none runs for that key |
| ResponseCache.Client.FinishExchange | dns/client.go:359-384 | rejected iff there is a checker and it or the rcode says so; what is delivered has the records of the response at the chosen TTL; exactly when it is stored, and the cache after it |
| ResponseCache.Client.EndRefresh | dns/client.go:672-720 | a refresh stores under the same conditions, also in the cache, and its key is free again |
| ResponseCache.Client.ClearCache | dns/client.go:496-506 | nothing is left |
| SingleFlight.StepKeepsWell | dns/client.go:258-357 | every atomic step of every exchange keeps the invariant of lock, channels and exchanges |
| SingleFlight.SingleFlightSafety | dns/client.go:258-357 | in every run: one owner per key, no channel closed twice, at most one wait per exchange, and whoever waits waits for one that does not; whoever is at the transport or on the way there owns a key, or makes no use of the cache, or has waited once, so that of those that use the cache and have not waited at most one per key is there |
| SingleFlight.WaitsBeforeTransport | dns/client.go:322-341 | in every run, an exchange that may wait and finds another's channel gets to the transport only after that channel is closed and after one more look in the cache that found nothing |
| SingleFlight.OnlyWaitersNeverOvertake | dns/client.go:325-327 | over all runs, who finds a channel is at the transport only with it closed, iff it may wait: an asynchronous exchange starts over instead and can be there before |
| SingleFlight.OnlyTheOwnerReleases | dns/client.go:251-256 | only the exchange that stored an entry removes it, once it is served, refused or answered and not while it is at the transport, and it closes that channel next |
| SingleFlight.EveryRunDrains | dns/client.go:400-449 | every run is finite and can go on until all are done; then the lock is empty and every stored channel closed exactly once |
| ClientSubnet.SetAtPlace | dns/extension_edns0_subnet.go:62-106 | after setting, the first subnet option of the message is the one set, but for the scope it had |
| ClientSubnet.SetKeepsOthers | dns/extension_edns0_subnet.go:62-106 | setting changes no other option or record; at most an OPT record is new |
| ClientSubnet.SetTwice | dns/extension_edns0_subnet.go:62-106 | the last subnet set counts |
| ClientSubnet.RemoveLeavesNone | dns/extension_edns0_subnet.go:37-60 | after removing there is none to read, and removing again changes nothing |
| ClientSubnet.RemovedExactly | dns/extension_edns0_subnet.go:37-60 | removing takes out exactly the options with the subnet's code and keeps all others in order |
| ClientSubnet.RemovedEverywhere | dns/extension_edns0_subnet.go:37-60 | from every OPT record, and from nothing else |
| ClientSubnet.ReadsBack | dns/extension_edns0_subnet.go:16-35 | a valid prefix is read back as itself iff it is not IPv4-mapped |
| ClientSubnet.SubnetMeans | dns/extension_edns0_subnet.go:16-106 | an option made of a prefix has family 1 for IPv4 and 2 for IPv6, its length, its address and scope 0; an option is read by the length of its address |
| ClientSubnet.PreparedMeans | dns/client.go:722-734 | what the prepared message says and what the key says: nothing if subnets are removed, else the query's own subnet, else the client's, else what the message says |
| ClientSubnet.KeyIsWhatIsSent | dns/client.go:114-131 | the prepared message says what the cache key says iff the subnet asked for is not IPv4-mapped; prepared or not, the key is the same; preparing twice is preparing once |
| ClientSubnet.MappedIsReadBackWrong | dns/extension_edns0_subnet.go:31-31 | an IPv4-mapped prefix that is read back as an invalid IPv4 prefix |
| SubnetMessages.FindExists | dns/extension_edns0_subnet.go:67-80 | the first subnet option with its record; without any, the last record if it is an OPT record |
| SubnetMessages.SetClientSubnet | dns/extension_edns0_subnet.go:62-106 | the result is the message with the subnet set, on fresh records where something changes; the caller's message is unchanged |
| SubnetMessages.RemoveClientSubnet | dns/extension_edns0_subnet.go:37-60 | the result is the message without subnet options; the caller's message is unchanged |
| SubnetMessages.ClientSubnetFromMessage | dns/extension_edns0_subnet.go:16-35 | the search loop finds what the value of the message says |
| SubnetMessages.PrepareExchangeMessage | dns/client.go:722-734 | removing, setting or leaving the subnet as the options say; the caller's message is unchanged |
| SubnetMessages.NewCacheKeySubnet | dns/client.go:114-131 | the key's subnet: none if removed, else the one asked for, else the message's own |
| Lifecycle.InsideKeepsStatus | daemon/started_service.go:248-342 | what the holder of the lifecycle mutex does keeps status, instance and interruption consistent |
| Lifecycle.OutsideKeepsStatus | daemon/started_service.go:158-165 | so does interrupting, failing or shutting down from outside, at any place of the holder; reporting an error sets FATAL and nothing else, a shutdown only marks the service closed, and a call that begins interrupts exactly a start with an instance |
| Lifecycle.InsideKeepsInstances | daemon/started_service.go:248-342 | every instance but the live one has been closed exactly once |
| Lifecycle.StepKeepsWell | daemon/started_service.go:248-349 | every step of every call keeps the invariant |
| Lifecycle.LifecycleSafety | daemon/started_service.go:248-349 | in every run: STARTED has an instance, IDLE has none, at most one instance is unclosed, none is closed twice |
| Lifecycle.ErrorIsReported | daemon/started_service.go:344-349 | in every run: a reported error makes the service FATAL at once and changes nothing else; it stays FATAL until the holder of the lifecycle mutex, at one of three places, writes another status |
| Lifecycle.EveryRunSettles | daemon/started_service.go:248-349 | every run is finite and can go on until all calls have returned; then not STOPPING, STARTING only if shut down, and all but the current instance closed exactly once |
| Lifecycle.AsIfInTurn | daemon/started_service.go:248-349 | whenever the lifecycle mutex is free, every call and error that has come to something is in the log once, with an outcome of its own kind; the service is as if they had been made one after the other in that order iff no error was lost in closing a service without an instance |
| Lifecycle.InOrderOfTime | daemon/started_service.go:248-349 | that order is the order of time: a call that had returned before another began comes before it |
| Lifecycle.LostIff | daemon/started_service.go:320-349 | some run of given calls loses an error in this way iff there are a start, a closing and an error among them |
| Lifecycle.StrandedIff | daemon/started_service.go:248-349 | some run of given calls comes to rest STARTING iff there are two starts and a shutdown among them |
| ConnectionStream.EvictionIsInvisible | experimental/libbox/command_types.go:181-190 | evicting closed connections, early or late, makes no difference to the open ones |
| ConnectionStream.Connections.ApplyEvents | experimental/libbox/command_types.go:129-179 | the client's map is the fold of the events, less old closed connections: an entry that no event names stays as it is until it is closed for more than five minutes; otherwise the last event on it decides it, so that a connection closed with final counters has exactly these, no rate and that closing time, and one closed without keeps its total |
| ConnectionStream.LastDecides | experimental/libbox/command_types.go:129-179 | what the last event on a connection makes of its entry, spelled out by event |
| ConnectionStream.UnnamedStays | experimental/libbox/command_types.go:129-179 | what no event names is left alone |
| ConnectionStream.Stream.BuildInitialConnectionState | daemon/started_service.go:871-897 | announces the active connections, then the closed ones; the service remembers exactly the active ones, and the client holds open those not also listed as closed, with the announced totals; closed ones it shows with their final totals and time |
| ConnectionStream.Stream.ApplyConnectionEvent | daemon/started_service.go:899-937 | a new connection is announced iff unknown, and its life begins; a closed one is forgotten, and the client shows its final counters, or else the total it had been told, no rate and the closing time; nothing else changes for the client, and no update is sent |
| ConnectionStream.Stream.Conclude | daemon/started_service.go:914-934 | a connection that ends is forgotten; the client shows its final counters if there are any, else the total it had been told, with no rate and that closing time, and all else as before |
| ConnectionStream.Stream.Observe | daemon/started_service.go:944-1003 | a known connection in a tick: what is remembered and exactly what is sent; the sighting is added to its life |
| ConnectionStream.DeltaMeans | daemon/started_service.go:947-969 | a tick reports what has passed in both directions, or nothing if either counter has fallen |
| ConnectionStream.Stream.BuildTrafficUpdates | daemon/started_service.go:939-1035 | after a tick exactly the active connections are remembered and followed, each with the sighting added to its life; totals are what was told over that life, rates what passed since; updates go only to connections the client holds open; one that is over shows the final totals of the list of closed ones, or else what it was told over its life, no rate and the closing time; the rest is as before |
| ConnectionStream.OpenIsRemembered | daemon/started_service.go:871-1035 | the client's open set is the remembered set iff nothing was lost at the start |
| ConnectionStream.LostAtTheStart | daemon/started_service.go:871-897 | a connection in both lists is remembered and not held open |
| ConnectionStream.TotalIsRight | daemon/started_service.go:871-1035 | at every moment of a stream a client's total is the counters last seen plus the drift of the connection's life, and equal to them iff there is none |
| ConnectionStream.TotalsAreExact | daemon/started_service.go:871-1035 | at every moment of a stream, if the connection's counters never fell, the client's total, announced plus all deltas, equals the counters last seen iff the two loads at the announcement agreed |
| ConnectionStream.ToldIsDrift | daemon/started_service.go:947-991 | over any life, the announced totals plus the deltas sent are the latest counters plus the drift: the loads' difference and what falling counters took back |
| ConnectionStream.UnequalLoads | daemon/started_service.go:899-918 | a connection with unequal loads whose total stays wrong |
| TransportStart.OrderIsSound | dns/transport_manager.go:89-145 | a valid order exists only without cycles and without missing dependencies |
| TransportStart.StartRound | dns/transport_manager.go:92-117 | a round only starts what is ready, each once; if it starts nothing, nothing can be started |
| TransportStart.LintTransport | dns/transport_manager.go:126-142 | ends, with a real dependency path that repeats a tag, or a dependency that is not there |
| TransportStart.StartTransports | dns/transport_manager.go:89-145 | unless a start fails: all are started, each once and after its dependencies, iff there is neither a cycle nor a missing dependency; otherwise one of these is reported |
| Taildrop.ChunkReader.BeginFile | daemon/started_service_taildrop.go:252-255 | the next file starts empty |
| Taildrop.ChunkReader.Read | daemon/started_service_taildrop.go:257-284 | the bytes handed out continue the file; end of file iff nothing but empty chunks precede the end mark; unacknowledged bytes stay below the interval, and reports rise |
| Taildrop.ChunkReader.FinishFile | daemon/started_service_taildrop.go:286-311 | passes iff nothing of the file is left and its size is as declared; then what was handed out is exactly the file; otherwise which error it gives, by what stands in the stream |
| Taildrop.SendFiles | daemon/started_service_taildrop.go:204-238 | however far it gets, what was handed out for each completed file is that file in the stream, of the declared size; it stops at the first file whose sender or reader fails, and otherwise has taken exactly the files |
| Taildrop.TakenIsFile | daemon/started_service_taildrop.go:257-311 | the messages up to an end mark are the next file of the stream |
| Taildrop.ReportsRise | daemon/started_service_taildrop.go:279-282 | reports strictly increase |
| SavedBinary.UvarintReadsBack | adapter/experimental.go:102-102 | a written varint is read back, whatever follows |
| SavedBinary.UvarintFormat | adapter/experimental.go:102-102 | seven bits to a byte, the lowest first, all but the last byte marked, and no more bytes than needed |
| SavedBinary.UvarintPrefixFails | adapter/experimental.go:102-102 | a varint cut short is refused as end of data |
| SavedBinary.DigitsFit | adapter/experimental.go:102-102 | what is read fits 64 bits |
| SavedBinary.ReadUvarint | adapter/experimental.go:102-102 | the loop reads the number its digits say, with its limits |
| SavedBinary.TimeReadsBack | adapter/experimental.go:114-119 | a time in seconds is read back |
| SavedBinary.TimeFormat | adapter/experimental.go:72-75 | a time is eight bytes, the highest first, in two's complement |
| SavedBinary.RoundTrip | adapter/experimental.go:58-149 | unmarshalling what was marshalled gives the same value, whatever follows |
| SavedBinary.OldVersionReadsBack | adapter/experimental.go:95-149 | data saved before version 2 has no hash, and is read back with the hash that was known |
| SavedBinary.StrictPrefixIsRefused | adapter/experimental.go:95-149 | every strict prefix of a marshalled value is refused |
| SavedBinary.SavedBinary.MarshalBinary | adapter/experimental.go:58-93 | writes the saved form of the fields, spelled out: version 2, and each field in its place with its length |
| SavedBinary.SavedBinary.UnmarshalBinary | adapter/experimental.go:95-149 | sets the fields the bytes say, or fails as they say; before version 2, and on failure, the hash stays |
| LogRing.OverwriteOldest | daemon/log_ring.go:21-25 | overwriting drops the oldest entry and appends the new one |
| LogRing.Ring.Push | daemon/log_ring.go:13-26 | one more entry since the last reset, and the ring still shows the last ones |
| LogRing.Ring.Array | daemon/log_ring.go:28-33 | exactly the last entries since the last reset, in order, at most maxLines; an entry is shown as long as fewer than maxLines came after it; none if maxLines is not positive |
| LogRing.Ring.Reset | daemon/log_ring.go:35-39 | nothing since the last reset |

## Left out

- Logging and the rule cache of the query metadata do not influence results and are not modelled.
- RuleTrees.MatchReadsOnlyBound: not promised of a rule with items on response fields that binds no response, of which it is false; such a rule is refused.
- RuleWalk.Walker.Settle: the code delivers once per sweep and the model at every rule the sweep judges; what the code would not have shown is late (TornReads.GapIsLate).
- The walk runs on rule lists outside legacy mode; `matchDNS`, lookups and reverse mapping (dns/router.go:285-369, 953-1391) are not part of this model.
- What a rule's items match (domains, ports, addresses, rule-set contents) is a parameter of the rule; deferred address groups, which only legacy mode has, are not modelled.
- A `reject` action with another method than `default` or `drop` is refused when rules are built, so it does not occur; `validateEvaluateFakeIPRules` (dns/router.go:1592-1611) is not part of this model.
- RuleModes.Router.UpdateRuleSet: checking and taking up are one step; what overlapping updates can do is RuleModes.OverlapIsHarmless.
- ResponseCache.Client.LoadResponse: times are exact; the source computes the seconds left in floating point, which above about 2^24 seconds can round up to the next whole second.
- The persistent form of the cache (dns/client.go:103-112, 621-645), rejected-response records, the HTTPS hint filter (dns/client.go:648-663) and the EDNS version fix-up (dns/client.go:386-397) are not part of this model; messages in the cache are values, so that copying them on the way in and out needs no proof.
- The environment hash is a number that may change between any two looks at it; its computation (dns/client.go:142-164) is not modelled.
- SingleFlight: what the cache contains is left open; a look at it may hit or miss. The key of an exchange that starts over is left open too, since the environment may have changed.
- ClientSubnet: address bits beyond the prefix length are masked when the message is packed, which is not part of this model.
- Lifecycle: creating and starting an instance may succeed or fail at will, and each call into an instance returns; the attached form of the service (daemon/attached_service.go) is not part of this model.
- ConnectionStream: counters are unbounded integers; delivery between service and client is in order and complete, as in the stream; connection ids of the active list are distinct, as keys of a map; a closing time is the one found, of the event, of the list of closed connections or of the clock.
- TransportStart: tags are unique, and the table of transports is the list being started; creating, removing and closing transports is not part of this model.
- Taildrop: the sender of a file is any sequence of reads, also on after a failed one; progress messages while sending are not modelled.
- SavedBinary: errors are told apart only by end of data, overflow and invalid length.
- Generated protocol code, options and constants, transport I/O, dialers, platform and logging code have no logic of this kind and are left out.
