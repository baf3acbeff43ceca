# Kea D2: dynamic DNS updates, configuration parsing and dependency resolution, verified

A Dafny model of three parts of Kea.

**The two DDNS transactions.** `CheckExistsAddTransaction` and
`CheckExistsRemoveTransaction` carry out one name change request each: they select a
server, send an RFC 2136 update, retry or fail over, make the forward change first and then
the reverse one. The model has three layers.

* `Dns` is the server: a zone is a set of records, and a message is executed atomically by
  the pseudocode of sections 3.2.5 and 3.4.2.7 of RFC 2136, with the CNAME rules. `Requests`
  holds the six messages the builders make and their effect in closed form.
* `Protocol` is a transaction as a small machine over phases ("waiting for the answer to this
  request from that server, n-th try"). `Network` puts any number of transactions around one
  zone. A request that was sent may reach the server never, once, often and late, also after
  its sender has given up on it; an answer may be lost; a server may refuse. `Bounds`,
  `Protection`, `Projection`, `Convergence`, `Removal`, `Progress`, `Ownership` and
  `LateCopies` prove what holds over every such run. How often a server is tried is a
  parameter; the objects set it to the three of `nc_trans.h`. `Answers` and `Families` state
  by name which return code leads where and which record types are written.
* `NcTrans`, `CheckExistsAdd` and `CheckExistsRemove` are the event-driven objects: current
  state, next event, attempt counter, server list, completion flags, and handlers that update
  them. They are proved to refine `Protocol`, reply by reply; `Driving` puts the steps together
  for a whole transaction, so that what holds of the runs of `Protocol` holds of the objects.
  `EventSafety` shows that no handler ever gets an event it would throw on, and `Reactions`
  gives the states and events by name.

**The configuration scanner and parser.** Each is an imperative form of a simple recursive
function. `JsonString` is the string decoding loop and JSON's string grammar. `IncludeStack`
is the scanner with its start conditions and its stacks of buffers, names, locations and
files, and the recursive expansion of include directives; `ScannerText` says what directives,
comments and white space in a text come to. `FlexBuffer` is the input buffer
with its refill, driven by an arbitrary automaton. `ConfigSyntax` gives derivations of the grammar and their meaning;
`ParserActions` are the semantic actions on the element stack, the parser's value stack and
the context stack, with elements in a heap because they are linked and then filled in place;
`ParserRefinement` and `KeywordRefinement` connect the two, and `ParserContext` is the object.
`Checks` says which values are accepted.
The keyword productions differ in keyword, context entered, check, and the keys that must be
unique or present; the derivations have these as parameters, so that the theorem covers all
of them.

**The SBOM resolver.** `Resolver` is the depth-limited search over what pkg-config knows.
`Normaliser` is the in-place renaming and merging of the dictionary of packages.

`dafny verify dfyconfig.toml` checks everything.

## What the proofs brought to light

* The reverse add is answered NOERROR, and the transaction completes, also where a CNAME at
  the reverse name makes the server skip the records (section 3.4.2.2 of RFC 2136).
  `AddConverges` states the exact condition.
* A request with neither domain is aborted by an exception in server selection and ends
  ST_FAILED; no other exception leaves a handler in any run (`NoWrongEvent`).
* The round trip of add and remove holds under every loss and repetition while each of them
  runs (`RoundTrip`). With copies of the add still in flight when the removal starts it
  holds in every run if and only if they are none at all, or only copies of the replace where
  the client's name is also its reverse name (`RoundTripIff`). A copy of the add brings the
  records back after the removal; a copy of the replace does so between its two forward steps,
  and the removal then leaves them alone as somebody else's, and completes.
* NXDOMAIN sends an add back from replacing to adding, but no RFC 2136 server can answer so:
  a missing DHCID is answered NXRRSET. The bound is stated for both, and reached in every
  configuration (`BoundIsReached`).
* A name in use without a DHCID is safe from every request but two: it can be overwritten or
  cleared as a reverse name (`UnmanagedEffect`).
* The input buffer of the scanner doubles, and grows by an eighth where doubling overflows.
  `GrowthFits` gives the sizes for which this works in 32 bits that wrap around.
* `check_exists_remove.h` says that NXDOMAIN counts as success of the address removal; the
  code accepts NXRRSET, and the model follows the code.
* A comment and a user context in one map do not commute: `CommentAndContextCommute` says
  exactly when they do.
* An address and a DHCID at a name can come to be of different clients, if the name is also a
  reverse name or is used by clients of both address families. `NoTornOwnershipIff` says for
  which sets of transactions that cannot happen.
* The normaliser can lose a package: if one is renamed to the name of another one that is
  itself renamed later, both end up in one entry. `NamesSurviveIff` says exactly when all
  names survive.
* A second pass of the normaliser over a dictionary is the identity if the packages that wrap
  metadata rename do not clash with the .pc names in it and keep their new names
  (`SecondPassIsIdentity`). Over all dictionaries there might be, this comes down to wrap files
  that rename nothing a .pc file could be called (`OnePassIsEnoughIff`).

## Model

| member | source | states |
|---|---|---|
| `Requests.MessageEffect` | src/bin/d2/check_exists_add.cc:598-731 | executing any of the six built messages by the RFC 2136 pseudocode on any legal zone gives exactly the closed-form answer and zone of `Effect`, the prerequisite failures and the CNAME case included |
| `Requests.ReplacePair` | src/bin/d2/check_exists_add.cc:661-683 | the four update records of a replace leave exactly the two added records of their types at the name, or, next to a CNAME, change nothing |
| `Requests.PtrPrereq` | src/bin/d2/check_exists_remove.cc:704-707 | the value-dependent PTR prerequisite is met exactly if the PTR RRset is the one given record, and fails with NXRRSET otherwise |
| `Families.AddMessages` | src/bin/d2/check_exists_add.cc:598-731 | the three messages of an add, record by record: an A for an IPv4 lease and an AAAA for an IPv6 one, the reverse request in the zone of the reverse domain |
| `Families.RemoveMessages` | src/bin/d2/check_exists_remove.cc:620-719 | the three messages of a removal, record by record |
| `Protocol.NextUsable` | src/lib/d2srv/nc_trans.cc:467-493 | the server selected is the first at or after the position that the hooks do not skip, and none is selected only if all the rest are skipped |
| `Protocol.NextConsistent` | src/bin/d2/check_exists_add.cc:172-560 | every reply in every waiting phase leads to a consistent phase: request of the right kind and domain, usable server, between one and the allowed number of tries, flags that fit |
| `Protocol.RunConsistent` | src/bin/d2/check_exists_remove.cc:176-581 | so does every run, whatever the replies and faults |
| `Protocol.StatusIsExact` | src/bin/d2/check_exists_add.cc:563-595 | at the end of every run the status is ST_COMPLETED if and only if every requested direction is flagged completed; without any domain the model is aborted and the status is ST_FAILED |
| `Protocol.ForwardFirst` | src/bin/d2/check_exists_add.cc:205-215 | a reverse request is never outstanding before a requested forward change is completed, and it was completed by an accepted answer earlier in the run |
| `Answers.AddAnswer` | src/bin/d2/check_exists_add.cc:200-230 | adding: NOERROR makes the change, YXDOMAIN goes on to replacing at the same server, every other return code means cease and fail |
| `Answers.ReplaceAnswer` | src/bin/d2/check_exists_add.cc:321-352 | replacing: NOERROR makes the change, NXDOMAIN goes back to adding, every other return code means cease and fail |
| `Answers.RemoveAddressAnswer` | src/bin/d2/check_exists_remove.cc:205-230 | removing the address: NOERROR and NXRRSET go on to the DHCID, every other return code means cease and fail |
| `Answers.RemoveDhcidAnswer` | src/bin/d2/check_exists_remove.cc:321-360 | removing the DHCID: NOERROR, NXRRSET and YXRRSET make the change, every other return code means cease and fail |
| `Answers.ReverseAnswer` | src/bin/d2/check_exists_remove.cc:491-520 | the reverse requests: NOERROR completes both of them, NXRRSET the removal only, and every other return code fails |
| `Answers.LossAnswer` | src/bin/d2/check_exists_add.cc:232-283 | a timeout, another error or an invalid response: the same request at the same server while tries are left, then the first usable server behind it, with adding in place of replacing; the DHCID removal gives up instead |
| `Answers.StoppedAnswer` | src/bin/d2/check_exists_add.cc:262-283 | a stopped exchange fails the transaction |
| `Answers.FirstRequest` | src/bin/d2/check_exists_add.cc:124-141 | the first request is the forward one if there is a forward domain, else the reverse one, at the first usable server |
| `Answers.ReplaceFollowsInUse` | src/bin/d2/check_exists_add.cc:216-219 | in every run a replace is outstanding only if that same server has answered YXDOMAIN to an add and nothing but losses came since |
| `Answers.FlagsAreEarned` | src/bin/d2/check_exists_add.cc:205-215 | in every run a direction is flagged completed if and only if an answer that makes its change, by name, has been received for a request of that direction |
| `Bounds.RunFuel` | src/bin/d2/check_exists_add.cc:216-219 | updates sent so far plus the most that can follow stay within what the first phase had, plus two requests with all their tries for every NXDOMAIN answer to a replace |
| `Bounds.SendsAreBounded` | src/bin/d2/check_exists_add.cc:172-560 | with T tries per server, F and R usable servers and k NXDOMAIN answers to a replace, an add sends at most T(2(F+k)+R) updates and a remove at most T(F+1+R); without a forward domain it is TR, and with one but no usable forward server it is none |
| `Bounds.BoundIsReached` | src/bin/d2/check_exists_add.cc:337-341 | each of these bounds is tight, whichever domains are missing and whichever servers the hooks skip: for every configuration and every k that can occur, a run sends exactly that many |
| `Bounds.NothingToSend` | src/lib/d2srv/nc_trans.cc:467-493 | where the bound is zero no run sends anything |
| `Bounds.BacktracksOnlyInAdd` | src/bin/d2/check_exists_remove.cc:176-581 | only an add with a usable forward server ever goes back to an earlier request |
| `Bounds.UsableCounts` | src/lib/d2srv/nc_trans.cc:467-493 | the number of servers in the bounds is the number of those that the hooks do not skip |
| `Bounds.RemovalSticksToServer` | src/bin/d2/check_exists_remove.cc:205-216 | while the DHCID removal is outstanding, the run before it is an accepted address removal at the same server followed by lost replies only |
| `Bounds.RemovalNeverFailsOver` | src/bin/d2/check_exists_remove.cc:360-404 | losing the last try of the DHCID removal ends the run as failed, however many servers are left |
| `ZoneFacts.EffectLegal` | src/bin/d2/check_exists_add.cc:598-731 | no request makes a CNAME share its name with other data |
| `ZoneFacts.EffectGuarded` | src/bin/d2/check_exists_remove.cc:620-685 | every request keeps "an A or AAAA at a name implies a DHCID there" |
| `ZoneFacts.EffectElsewhere` | src/bin/d2/check_exists_add.cc:598-731 | a request changes nothing outside the one name it is about |
| `Network.ServeEffect` | src/bin/d2/check_exists_add.cc:598-731 | the server of the network model executes requests with the effect of `Effect` and keeps the zone legal |
| `Network.StepOk` | src/lib/d2srv/nc_trans.cc:192-224 | every event of the network (delivery of a copy, refusal, reply or loss) keeps every transaction consistent |
| `Network.TraceOk` | src/lib/d2srv/nc_trans.cc:111-134 | so does every sequence of events |
| `Network.AddressesStayGuarded` | src/bin/d2/check_exists_add.cc:598-687 | for any number of adds and removes interleaved request by request, with copies lost, repeated or delayed, an address never stands at a name without a DHCID |
| `Ownership.DeliverPaired` | src/bin/d2/check_exists_remove.cc:632-681 | each request, arriving at any time, leaves an address at a name the only one of its type, together with the only DHCID, and both those of one of the adds, whatever else stands there; if and only if it does not put its own DHCID over an address that no add with that DHCID has |
| `Ownership.NoTornOwnership` | src/bin/d2/check_exists_add.cc:611-683 | so over every interleaving of transactions in which an add that can restamp the name (it is its reverse name, or its address is of the other family) and an add that writes it always have a third one, possibly one of the two, with the DHCID of the former and the address of the latter |
| `Ownership.NoTornOwnershipIff` | src/bin/d2/check_exists_add.cc:598-731 | from a start on unused names, with servers to talk to, that condition on the set of transactions is exact: it holds if and only if in every run, at every point, address and DHCID belong together |
| `Ownership.UnusedNamesStayWhole` | src/bin/d2/check_exists_add.cc:611-683 | at an unused name that no add can restamp, an address and the DHCID of the same request are all there ever is |
| `Protection.UnmanagedEffect` | src/bin/d2/check_exists_add.cc:598-687 | a name in use without a DHCID is left alone by each of the six requests, if and only if it is not the reverse name of the request with nothing in the way (no CNAME for the reverse add, exactly the PTR of the client for the reverse removal); both forward adds are answered with a rejection |
| `Protection.StuckReceive` | src/bin/d2/check_exists_add.cc:216-230 | a forward add that heard such an answer never completes the forward change and never gets to the reverse part |
| `Protection.UnmanagedNamesAreProtected` | src/bin/d2/check_exists_add.cc:337-352 | over a run of any number of transactions all records of such a name stay as they are at every point if and only if no delivered request is one of those two, and then every add for it that ends has failed without a reverse update |
| `Protection.LateRemovalsAreHarmless` | src/bin/d2/check_exists_remove.cc:632-681 | at any point of any interleaving a removal request adds nothing and takes out only its own lease address, a DHCID where no address is left, and reverse data whose PTR set is exactly the client's name |
| `Protection.RemovalsTakeOnlyTheirOwn` | src/bin/d2/check_exists_remove.cc:663-715 | any number of removals over a whole run add nothing, and every record they took out is accounted for by one of them |
| `Protection.PtrAllOrNothing` | src/bin/d2/check_exists_remove.cc:704-715 | a removal takes out all PTR records of a name or none |
| `Projection.TraceProjects` | src/bin/d2/check_exists_add.cc:652-654 | a transaction in the network goes through exactly the phases that its own exchanges give, and the answer NXDOMAIN to a replace never occurs, whoever else writes |
| `Projection.SendsAreBoundedOnRfcServer` | src/bin/d2/check_exists_add.cc:172-560 | against an RFC 2136 server, with any concurrent writers, a transaction has sent no more updates than the bound without backtracks: T(2F+R) for an add, T(F+1+R) for a remove |
| `Convergence.ForwardSettles` | src/bin/d2/check_exists_add.cc:598-687 | a forward request on the zone before or after the change leaves it in one of these two states, and an answer NOERROR means after |
| `Convergence.OwnedIsStable` | src/bin/d2/check_exists_add.cc:598-687 | once the client owns the name, late copies of its forward requests change nothing |
| `Convergence.ReverseMaps` | src/bin/d2/check_exists_add.cc:690-731 | the reverse request establishes the mapping if and only if no CNAME stands at the reverse name |
| `Convergence.AddTouchesOnlyItsOwn` | src/bin/d2/check_exists_add.cc:598-731 | an add changes no record but those of its family, the DHCID and the reverse mapping at its two names |
| `Convergence.AddInvHolds` | src/bin/d2/check_exists_add.cc:172-560 | in every run, whatever was lost or repeated, each direction is untouched or fully applied, and a completed flag means applied |
| `Convergence.AddConverges` | src/bin/d2/check_exists_add.cc:124-595 | a completed add leaves exactly the lease address, exactly the client DHCID and exactly the client PTR (the last if and only if there was no CNAME at the reverse name) and all other data unchanged; a failed one leaves each direction untouched or fully applied |
| `Families.AddLeavesFamily` | src/bin/d2/check_exists_add.cc:598-687 | by types: after a completed add the lease address is the only A (IPv4) or AAAA (IPv6) at the name, the records of the other type are as they were, and the DHCID is the client's |
| `Removal.RemovalSettles` | src/bin/d2/check_exists_remove.cc:620-685 | repeating an applied removal request changes nothing more |
| `Removal.RemovalIsAlwaysAccepted` | src/bin/d2/check_exists_remove.cc:205-217 | on every zone, so also when it has been applied before, every removal request gets an answer that counts as success |
| `Removal.RemoveInvHolds` | src/bin/d2/check_exists_remove.cc:176-581 | in every run the zone is at one of the stages of the removal, and each completed flag means that its stage is reached |
| `Removal.ForwardRemovalLeaves` | src/bin/d2/check_exists_remove.cc:620-685 | a forward removal deletes exactly the lease address, and the DHCID if and only if no A or AAAA remains |
| `Families.RemovalLeavesFamily` | src/bin/d2/check_exists_remove.cc:620-685 | by types: where there is a DHCID exactly the lease address goes from the A or AAAA records, the other type is as it was, and the DHCIDs go exactly if neither type is left; where there is none nothing changes |
| `Removal.RemoveConverges` | src/bin/d2/check_exists_remove.cc:128-617 | a completed removal leaves exactly the records that should survive at both names, which may be the same one, and everything else; a failed one leaves the zone at one of the stages |
| `Removal.ZonesRoundTrip` | src/bin/d2/check_exists_remove.cc:620-719 | on unused names the removal undoes the add, record by record |
| `Removal.RoundTrip` | src/bin/d2/check_exists_remove.cc:128-617 | a completed add followed by a completed remove of the same request restores the zone exactly, under any losses, repetitions and failover of each, no copy of the add being in flight any more while the remove runs |
| `Families.RoundTripByFamily` | src/bin/d2/check_exists_remove.cc:128-617 | and in between the lease address is there, under its own type only |
| `Progress.AnsweredTransactionsFinish` | src/bin/d2/check_exists_add.cc:124-595 | if requests are answered a transaction ends within three exchanges, and completes if and only if it does not add to a name in use without a DHCID |
| `LateCopies.AddLeavesCopies` | src/bin/d2/check_exists_add.cc:598-731 | a completed add leaves the zone with its changes, and copies of the requests it sent |
| `LateCopies.NoCopiesRestore` | src/bin/d2/check_exists_remove.cc:620-719 | without such copies every run in which the removal completes restores the zone |
| `LateCopies.OneNameHolds` | src/bin/d2/check_exists_remove.cc:620-719 | with both directions at one name and only copies of the replace in flight, the zone passes through known stages in every run, and a completed removal restores it |
| `LateCopies.CopyAfterwards` | src/bin/d2/check_exists_add.cc:598-731 | a copy of the add or of the reverse request in flight: some run in which the removal completes does not restore the zone |
| `LateCopies.CopyBetween` | src/bin/d2/check_exists_remove.cc:651-685 | so too with a copy of the replace between the two forward removals, which the second one takes for another client |
| `LateCopies.RoundTripIff` | src/bin/d2/check_exists_remove.cc:620-719 | the add completed on unused names and F the requests of which copies are in flight: every run in which the removal completes restores the zone, if and only if F is empty, or is just the replace and both directions are at one name |
| `NcTrans.SendAdvances` | src/lib/d2srv/nc_trans.cc:192-224 | sending a request leaves the transaction headed for the same phase, waiting on the selected server with exactly the request of its leg |
| `NcTrans.FaultAdvances` | src/lib/d2srv/nc_trans.cc:206-223 | a failure to build or send leads to the failed phase that the protocol prescribes |
| `NcTrans.ReactAdvances` | src/bin/d2/check_exists_add.cc:200-283 | reacting to any reply in any of the six sending states leaves the transaction headed for the phase that the protocol prescribes |
| `NcTrans.ChooseAdvances` | src/lib/d2srv/nc_trans.cc:455-493 | so does selecting a server, from a new list or walking on |
| `NcTrans.TurnAdvances` | src/lib/util/state_model.cc:112-137 | one handler call never changes the phase a transaction is headed for, and comes closer to it |
| `NcTrans.Stopped` | src/lib/util/state_model.cc:112-137 | when the run loop stops, the transaction is in the phase it was headed for, and the latest transmission is the request of that phase to its server |
| `NcTrans.ReplyHeads` | src/lib/d2srv/nc_trans.cc:121-134 | a reply heads a waiting transaction for the next phase of the protocol |
| `NcTrans.StartHeads` | src/lib/d2srv/nc_trans.cc:111-118 | starting heads a transaction for the first phase |
| `NcTrans.NameChangeTransaction.constructor` | src/lib/d2srv/nc_trans.cc:68-105 | a new transaction is idle, pending, with nothing done or sent |
| `NcTrans.NameChangeTransaction.AbortModel` | src/lib/util/state_model.cc:282-288 | the end state with the failure event, and the request failed |
| `NcTrans.NameChangeTransaction.ClearAttemptsOnEntry` | src/bin/d2/check_exists_add.cc:173-176 | attempts are cleared exactly on entry to a state |
| `NcTrans.NameChangeTransaction.RetryTransition` | src/lib/d2srv/nc_trans.cc:286-295 | the same state again while tries are left, the failure state after that |
| `NcTrans.NameChangeTransaction.InitServerSelection` | src/lib/d2srv/nc_trans.cc:455-464 | an exception exactly without a domain, else the start of its server list |
| `NcTrans.NameChangeTransaction.SelectNextServer` | src/lib/d2srv/nc_trans.cc:467-493 | the loop over skipped servers finds a server exactly if a usable one is left, and then the first of them |
| `NcTrans.NameChangeTransaction.SendUpdate` | src/lib/d2srv/nc_trans.cc:192-224 | counts the attempt, and sends the request to the current server or fails |
| `EventSafety.RunStaysInStep` | src/bin/d2/check_exists_add.cc:124-595 | over every run, handler by handler, state, event and data belong together |
| `EventSafety.NoWrongEvent` | src/bin/d2/check_exists_remove.cc:128-617 | in every reachable state of either transaction the next event is one the handler accepts, which for each handler method is exactly when it does not throw; SERVER_IO_ERROR_EVT reaches the failed state in remove only, and only a transaction without domains is aborted |
| `Reactions.AnswerTurns` | src/bin/d2/check_exists_add.cc:200-230 | for each of the six sending states the state, event and flag that every return code leads to, by name |
| `Reactions.FailureTurns` | src/lib/d2srv/nc_trans.cc:286-295 | the same for replies that are no answer: retry, next server, or failure |
| `Reactions.ChoiceFinds` | src/lib/d2srv/nc_trans.cc:467-493 | selection takes the first server that is not skipped, from the start of the list or on from the last one, and enters the sending state |
| `Reactions.ChoiceFails` | src/lib/d2srv/nc_trans.cc:467-493 | and fails with NO_MORE_SERVERS_EVT if there is none |
| `Reactions.SendTurns` | src/lib/d2srv/nc_trans.cc:192-224 | sending counts an attempt and transmits the request to the selected server; an exception in building or sending fails the transaction |
| `CheckExistsAdd.CheckExistsAddTransaction.ReadyHandler` | src/bin/d2/check_exists_add.cc:124-141 | to forward selection if there is a forward domain, else to reverse; an exception exactly on any other event |
| `CheckExistsAdd.CheckExistsAddTransaction.SelectingFwdServerHandler` | src/bin/d2/check_exists_add.cc:144-169 | the next usable forward server and the adding state, or failure |
| `CheckExistsAdd.CheckExistsAddTransaction.AddingFwdAddrsHandler` | src/bin/d2/check_exists_add.cc:172-289 | sends, or reacts to the reply, exactly as the protocol step for this request; an exception exactly on any other event |
| `CheckExistsAdd.CheckExistsAddTransaction.AddingFwdAddrsReply` | src/bin/d2/check_exists_add.cc:200-283 | the reaction to every status and rcode |
| `CheckExistsAdd.CheckExistsAddTransaction.ReplacingFwdAddrsHandler` | src/bin/d2/check_exists_add.cc:292-416 | the same for the replace request, which FQDN_IN_USE_EVT starts too |
| `CheckExistsAdd.CheckExistsAddTransaction.ReplacingFwdAddrsReply` | src/bin/d2/check_exists_add.cc:321-409 | the reaction to every status and rcode, NXDOMAIN going back to adding |
| `CheckExistsAdd.CheckExistsAddTransaction.SelectingRevServerHandler` | src/bin/d2/check_exists_add.cc:419-446 | the next usable reverse server and the replacing state, or failure |
| `CheckExistsAdd.CheckExistsAddTransaction.ReplacingRevPtrsHandler` | src/bin/d2/check_exists_add.cc:449-560 | the same for the reverse request |
| `CheckExistsAdd.CheckExistsAddTransaction.ProcessAddOkHandler` | src/bin/d2/check_exists_add.cc:563-577 | completed and ended, exactly on UPDATE_OK_EVT |
| `CheckExistsAdd.CheckExistsAddTransaction.ProcessAddFailedHandler` | src/bin/d2/check_exists_add.cc:580-595 | failed and ended, exactly on UPDATE_FAILED_EVT or NO_MORE_SERVERS_EVT |
| `CheckExistsAdd.CheckExistsAddTransaction.BuildAddFwdAddressRequest` | src/bin/d2/check_exists_add.cc:598-637 | the message built step by step is the add request whose effect `MessageEffect` gives |
| `CheckExistsAdd.CheckExistsAddTransaction.BuildReplaceFwdAddressRequest` | src/bin/d2/check_exists_add.cc:640-687 | the same for the replace request |
| `CheckExistsAdd.CheckExistsAddTransaction.BuildReplaceRevPtrsRequest` | src/bin/d2/check_exists_add.cc:690-731 | the same for the reverse request |
| `CheckExistsAdd.CheckExistsAddTransaction.RunHandler` | src/lib/util/state_model.cc:112-137 | one turn of the loop is `Turn`, the function the safety and refinement proofs are about; it keeps the phase the transaction is headed for and comes closer to it |
| `CheckExistsAdd.CheckExistsAddTransaction.RunModel` | src/lib/util/state_model.cc:112-137 | the loop ends, and the transaction then waits or is over in the phase it was headed for |
| `CheckExistsAdd.CheckExistsAddTransaction.StartTransaction` | src/lib/d2srv/nc_trans.cc:111-118 | the event-driven machine reaches the first phase of the protocol and has sent exactly its request |
| `CheckExistsAdd.CheckExistsAddTransaction.IoCompleted` | src/lib/d2srv/nc_trans.cc:121-134 | after any reply the machine is in the next phase of the protocol; it has sent an update exactly if that phase waits, and it is that phase's request to that phase's server |
| `CheckExistsRemove.CheckExistsRemoveTransaction.ReadyHandler` | src/bin/d2/check_exists_remove.cc:128-145 | as for add |
| `CheckExistsRemove.CheckExistsRemoveTransaction.SelectingFwdServerHandler` | src/bin/d2/check_exists_remove.cc:148-173 | the next usable forward server and the address-removing state, or failure |
| `CheckExistsRemove.CheckExistsRemoveTransaction.RemovingFwdAddrsHandler` | src/bin/d2/check_exists_remove.cc:176-288 | sends, or reacts to the reply, exactly as the protocol step for this request |
| `CheckExistsRemove.CheckExistsRemoveTransaction.RemovingFwdAddrsReply` | src/bin/d2/check_exists_remove.cc:205-282 | the reaction to every status and rcode, NXRRSET counting as success |
| `CheckExistsRemove.CheckExistsRemoveTransaction.RemovingFwdRRsHandler` | src/bin/d2/check_exists_remove.cc:291-429 | the same for the DHCID removal, which UPDATE_OK_EVT starts too |
| `CheckExistsRemove.CheckExistsRemoveTransaction.RemovingFwdRRsReply` | src/bin/d2/check_exists_remove.cc:321-422 | the reaction to every status and rcode, NXRRSET and YXRRSET counting as success and exhausted tries as failure |
| `CheckExistsRemove.CheckExistsRemoveTransaction.SelectingRevServerHandler` | src/bin/d2/check_exists_remove.cc:432-459 | the next usable reverse server and the PTR-removing state, or failure |
| `CheckExistsRemove.CheckExistsRemoveTransaction.RemovingRevPtrsHandler` | src/bin/d2/check_exists_remove.cc:462-581 | the same for the PTR removal |
| `CheckExistsRemove.CheckExistsRemoveTransaction.ProcessRemoveOkHandler` | src/bin/d2/check_exists_remove.cc:584-598 | completed and ended, exactly on UPDATE_OK_EVT |
| `CheckExistsRemove.CheckExistsRemoveTransaction.ProcessRemoveFailedHandler` | src/bin/d2/check_exists_remove.cc:601-617 | failed and ended, exactly on UPDATE_FAILED_EVT, NO_MORE_SERVERS_EVT or SERVER_IO_ERROR_EVT |
| `CheckExistsRemove.CheckExistsRemoveTransaction.BuildRemoveFwdAddressRequest` | src/bin/d2/check_exists_remove.cc:620-648 | the message built step by step is the address removal whose effect `MessageEffect` gives |
| `CheckExistsRemove.CheckExistsRemoveTransaction.BuildRemoveFwdRRsRequest` | src/bin/d2/check_exists_remove.cc:651-685 | the same for the DHCID removal |
| `CheckExistsRemove.CheckExistsRemoveTransaction.BuildRemoveRevPtrsRequest` | src/bin/d2/check_exists_remove.cc:688-719 | the same for the PTR removal |
| `CheckExistsRemove.CheckExistsRemoveTransaction.RunHandler` | src/lib/util/state_model.cc:112-137 | as for add |
| `CheckExistsRemove.CheckExistsRemoveTransaction.RunModel` | src/lib/util/state_model.cc:112-137 | as for add |
| `CheckExistsRemove.CheckExistsRemoveTransaction.StartTransaction` | src/lib/d2srv/nc_trans.cc:111-118 | as for add |
| `CheckExistsRemove.CheckExistsRemoveTransaction.IoCompleted` | src/lib/d2srv/nc_trans.cc:121-134 | as for add: the handlers refine the protocol step, reply by reply |
| `Driving.DriveAdd` | src/lib/d2srv/nc_trans.cc:111-134 | an add object, constructed, started and given any list of replies, is in the phase of the protocol run with these replies; with the three tries of the source it has sent at most 3(2(F+k)+R) updates, one more than replies while it waits, and ends with the status that its two flags say |
| `Driving.DriveRemove` | src/lib/d2srv/nc_trans.cc:111-134 | the same for a remove object, with at most 3(F+1+R) updates |
| `JsonString.Decode` | src/bin/d2/d2_lexer.cc:2490-2592 | the decode loop stays in bounds on every input and computes the recursive decoding |
| `JsonString.DecodeDecidesGrammar` | src/bin/d2/d2_lexer.cc:2499-2592 | decoding succeeds exactly on JSON string contents without an escape above 00ff, and on any JSON string content gives its meaning |
| `JsonString.FirstUnsupportedIsReported` | src/bin/d2/d2_lexer.cc:2537-2549 | run on JSON string content the loop can fail only on an escape above 00ff, and the first such escape is the one reported, with its place |
| `JsonString.UnitsOf` | src/bin/d2/d2_lexer.cc:2499-2592 | whatever the loop accepts is a list of valid JSON string characters |
| `JsonString.DecodeInvertsEscape` | src/bin/d2/d2_lexer.cc:2499-2592 | decoding the RFC 8259 section 7 escaping of any byte string gives the byte string back |
| `JsonString.DecodeIsExact` | src/bin/d2/d2_lexer.cc:2499-2592 | decoding gives a byte string if and only if the input writes it byte by byte, plainly, with one of the eight letter escapes given by number, or with hexadecimal digits of either case: it inverts every escaper |
| `JsonString.StepComplains` | src/bin/d2/d2_lexer.cc:2499-2592 | which error a position gives at which no way of writing a byte begins |
| `IncludeStack.EndlessInclusionStops` | src/bin/d2/d2_lexer.cc:4047-4051 | a file that includes itself, or files that include each other in a cycle, each before any other include, yield the tokens up to the include for the twelve files that are opened, the outermost one included, and then the nesting error |
| `IncludeStack.CyclesFail` | src/bin/d2/d2_lexer.cc:4047-4051 | a cycle of includes, wherever in the files and whatever else they include, is never scanned to the end |
| `IncludeStack.ShallowNestingIsFine` | src/bin/d2/d2_lexer.cc:4047-4051 | includes that nest no more than eleven deep never give that error |
| `IncludeStack.LocationsAreRight` | src/bin/d2/d2_lexer.cc:2846-2869 | however files are nested, each token comes with the file it stands in and with the line and column it has there |
| `IncludeStack.D2OneLiners` | src/bin/d2/d2_lexer.ll:138-178 | the patterns for comments, directives, blanks and newlines, chosen by start condition, never match a newline together with anything else, which is what the counting of lines rests on |
| `ScannerText.ScanOfIsProper` | src/bin/d2/d2_lexer.ll:138-180 | there is such a view of every file: what is still to come from each position is what the expansion with the patterns of the D2 configuration gives |
| `ScannerText.DirectiveIncludes` | src/bin/d2/d2_lexer.ll:154-168 | a directive in the text, with any white space inside, amounts to the tokens of the file it names followed by those behind the closing bracket; beyond ten suspended files, or if the file is not there, to an error |
| `ScannerText.DirectiveRejects` | src/bin/d2/d2_lexer.ll:165-168 | inside a directive anything else than white space and the word expected is an error at its place |
| `ScannerText.SpaceIsSkipped` | src/bin/d2/d2_lexer.ll:171-180 | white space is skipped in every start condition |
| `ScannerText.CommentIsSkipped` | src/bin/d2/d2_lexer.ll:142-148 | a comment is skipped up to its first end, over any lines |
| `ScannerText.CommentRunsOut` | src/bin/d2/d2_lexer.ll:149-152 | one without an end is an error |
| `ScannerText.LineIsSkipped` | src/bin/d2/d2_lexer.ll:138-140 | a comment that a hash or two slashes begin is skipped to the end of the line |
| `ScannerText.TokenIsEmitted` | src/bin/d2/d2_lexer.ll:745-760 | a token comes with its text, its file and the place where it ends |
| `ScannerText.EndIs` | src/bin/d2/d2_lexer.ll:1028-1031 | the end of a file is an error exactly inside a comment or a directive |
| `ScannerText.PlaceIs` | src/bin/d2/d2_lexer.ll:175-179 | the line is one more than the newlines before, and the column one more than the characters since the last of them |
| `IncludeStack.RestDivert` | src/bin/d2/d2_lexer.cc:4047-4074 | an include directive amounts to the tokens of the included file in front of the rest of the including one |
| `IncludeStack.RestEnd` | src/bin/d2/d2_lexer.cc:2846-2869 | the end of a file resumes the file that included it, and inside a comment or a directive it is an error |
| `IncludeStack.Scanner.IncludeFile` | src/bin/d2/d2_lexer.cc:4047-4074 | refuses beyond eleven suspended buffers, reports a file that cannot be opened, and otherwise suspends the current buffer, name, location and file together |
| `IncludeStack.Scanner.EndOfFile` | src/bin/d2/d2_lexer.cc:2846-2869 | closes the included file and brings back buffer, name, location and file together |
| `IncludeStack.Scanner.ScanEnd` | src/bin/d2/d2_lexer.cc:4026-4045 | closes every file still open, each exactly once |
| `IncludeStack.Scanner.Turn` | src/bin/d2/d2_lexer.cc:1699-1734 | one step of the scanner: what is still to come is what was to come before, less the token returned, and there is less work left |
| `IncludeStack.Scanner.Scan` | src/bin/d2/d2_lexer.cc:1699-1734 | the tokens, locations and error from the explicit stacks are those of the recursive expansion, and no file is left open |
| `FlexBuffer.TokenIsLongest` | src/bin/d2/d2_lexer.cc:2879-3004 | the length the automaton finds is that of the longest accepted prefix, or one by the default rule, and no other length is |
| `FlexBuffer.GrowthFits` | src/bin/d2/d2_lexer.cc:3090-3103 | in 32-bit arithmetic one step of growth makes the buffer larger with room for the two sentinels, if and only if the size is at most 1908874351 and is not 1073741823 |
| `FlexBuffer.Buffer.OnFile` | src/bin/d2/d2_lexer.cc:3412-3438 | a new buffer on a file is empty, with both end-of-buffer characters in place |
| `FlexBuffer.Buffer.OnString` | src/bin/d2/d2_lexer.cc:3714-3740 | a buffer on a string holds all of it, with both end-of-buffer characters in place |
| `FlexBuffer.Buffer.MoveToFront` | src/bin/d2/d2_lexer.cc:3064-3068 | the unfinished token is copied to the front unchanged although source and destination overlap |
| `FlexBuffer.Buffer.MakeRoom` | src/bin/d2/d2_lexer.cc:3078-3117 | the growth loop, doubling or growing by an eighth, ends with room for at least one character, keeps the text, and never overflows the 32-bit size |
| `FlexBuffer.Buffer.Read` | src/bin/d2/d2_lexer.cc:1407-1435 | any number of characters that fit and are there, none only at the end of the file |
| `FlexBuffer.Buffer.ReadOn` | src/bin/d2/d2_lexer.cc:3064-3166 | text in the buffer plus unread input stay the same, the sentinels are in bounds, and the late extension is never needed |
| `FlexBuffer.Buffer.Refill` | src/bin/d2/d2_lexer.cc:3029-3166 | the same for strings too; end of file is reported if and only if nothing is left, going on means that there is more text, and a last match that the file has ended |
| `FlexBuffer.Buffer.PreviousState` | src/bin/d2/d2_lexer.cc:3172-3200 | running the automaton again over the matched text gives the state it was in |
| `FlexBuffer.Buffer.EndOfBuffer` | src/bin/d2/d2_lexer.cc:2879-3004 | an end-of-buffer character inside the text is a NUL of the text; otherwise the buffer is refilled and the scanner stands where it stood in the text |
| `FlexBuffer.Buffer.Match` | src/bin/d2/d2_lexer.cc:2879-3004 | the token found across any refills is the one of the whole remaining text |
| `FlexBuffer.Buffer.NextToken` | src/bin/d2/d2_lexer.cc:2879-3004 | that token is returned and the rest remains |
| `FlexBuffer.Buffer.Scan` | src/bin/d2/d2_lexer.cc:2879-3166 | for every automaton and every sizes of reads the tokens are those of the whole text |
| `ConfigSyntax.CommentAndContextCommute` | src/bin/d2/d2_parser.cc:1118-1180 | the order of a comment and a user context makes no difference if and only if the user context has neither a comment of its own nor null entries |
| `Checks.ScalarIsChecked` | src/bin/d2/d2_parser.cc:1034-1060 | a keyword with a scalar is set if the value is acceptable and rejected if it is not, where ports are 1 to 65535, timeouts at least 1, digest bits zero or a positive multiple of eight, and texts blank or not blank |
| `Checks.PortIsChecked` | src/bin/d2/d2_parser.cc:1034-1043 | a configuration with a port is accepted if and only if it is between 1 and 65535 |
| `Checks.AcceptedIsChecked` | src/bin/d2/d2_parser.cc:716-2329 | for every derivation: a configuration is accepted only if all its values, at any depth, are acceptable, and rejected for a value only if one is not |
| `Checks.FirstTakenIs` | src/bin/d2/parser_context.cc:120-136 | the key that a duplicate error names is the first of those asked about that is there already |
| `Checks.FirstMissingIs` | src/bin/d2/parser_context.cc:105-118 | the key that an error about a missing one names is the first that is missing |
| `Checks.CommentGoes` | src/bin/d2/d2_parser.cc:1153-1180 | a comment ends up under "comment" in "user-context", with the entries that were there and are not null; a second comment is an error |
| `Checks.UserContextGoes` | src/bin/d2/d2_parser.cc:1118-1143 | a user context ends up under "user-context", with the comment that was there; a second user context is an error |
| `ParserRefinement.ReadsFrame` | src/bin/d2/d2_parser.cc:836-926 | a finished element is not affected by later changes to older elements or by new ones |
| `ParserRefinement.ReadsUnique` | src/bin/d2/d2_parser.cc:778-926 | an element stands for one tree only |
| `ParserRefinement.JsonBuilds` | src/bin/d2/d2_parser.cc:778-926 | the actions of any JSON value build exactly its meaning on the value stack, or stop at its first duplicate key, and leave element and context stacks and all older elements as they were |
| `ParserRefinement.MembersFill` | src/bin/d2/d2_parser.cc:857-883 | the actions of map members fill exactly the open map |
| `ParserRefinement.ItemsFill` | src/bin/d2/d2_parser.cc:902-926 | the actions of list items fill exactly the open list |
| `KeywordRefinement.LeaveUndoes` | src/bin/d2/parser_context.cc:138-154 | a context that was entered can be left, and leaving restores context and stack |
| `KeywordRefinement.ValueFills` | src/bin/d2/d2_parser.cc:2230-2246 | a keyword with a JSON value: unique key checked in the outer context, value read in the inner one |
| `KeywordRefinement.ChildFills` | src/bin/d2/d2_parser.cc:1182-1201 | a child that was linked into its parent before it was filled is, when closed, exactly an entry of the parent |
| `KeywordRefinement.MapParamFills` | src/bin/d2/d2_parser.cc:960-979 | a keyword with a map, its required keys included |
| `KeywordRefinement.ListParamFills` | src/bin/d2/d2_parser.cc:1364-1383 | a keyword with a list of maps |
| `KeywordRefinement.UserContextMerges` | src/bin/d2/d2_parser.cc:1118-1143 | a user context after a comment takes the comment in, in place |
| `KeywordRefinement.CommentMerges` | src/bin/d2/d2_parser.cc:1153-1180 | a comment after a user context takes its entries over, without the null ones |
| `KeywordRefinement.ParamFills` | src/bin/d2/d2_parser.cc:1014-1060 | every shape of parameter fills the open map by exactly its meaning and leaves both stacks balanced |
| `KeywordRefinement.ParamsFill` | src/bin/d2/d2_parser.cc:1182-1201 | so does every list of parameters, nested to any depth |
| `KeywordRefinement.GroupsFill` | src/bin/d2/d2_parser.cc:1280-1294 | so does every list of maps |
| `KeywordRefinement.ParseIsEvaluation` | src/bin/d2/d2_parser.cc:716-1010 | for every derivation from every start symbol the actions end with exactly one element, the meaning of the derivation, and no open context, or stop at exactly its first error |
| `KeywordRefinement.NeverUnderflows` | src/bin/d2/parser_context.cc:145-154 | and that error is never an empty context stack or an empty element stack |
| `ParserContext.D2ParserContext.LeaveContext` | src/bin/d2/parser_context.cc:145-154 | the saved context is restored; an error exactly without one |
| `ParserContext.D2ParserContext.CheckUnique` | src/bin/d2/parser_context.cc:120-136 | no error if and only if none of the keys is there; otherwise the error names the first one that is, and the current context |
| `ParserContext.D2ParserContext.CheckRequired` | src/bin/d2/parser_context.cc:105-118 | no error if and only if all the keys are there; otherwise the error names the first one that is missing |
| `ParserContext.D2ParserContext.OpenKeyword` | src/bin/d2/d2_parser.cc:960-970 | the new element is linked into the open map, opened, and its context entered |
| `ParserContext.D2ParserContext.MergeUserContext` | src/bin/d2/d2_parser.cc:1118-1143 | the in-place merge of a user context |
| `ParserContext.D2ParserContext.MergeComment` | src/bin/d2/d2_parser.cc:1153-1180 | the in-place merge of a comment |
| `ParserContext.D2ParserContext.Reduce` | src/bin/d2/d2_parser.cc:716-2329 | one reduction updates the stacks and elements as its action says |
| `ParserContext.D2ParserContext.Parse` | src/bin/d2/parser_context.cc:48-70 | the element returned is the meaning of the whole configuration, or the error its first one, and never an underflow; what is accepted has only acceptable values; the check for exactly one element never fails |
| `Resolver.ClosedHoldsReachable` | tools/sbom/resolver.py:264-269 | a set that holds the seeds and the dependencies of its members holds everything reachable |
| `Resolver.FewPackagesSuffice` | tools/sbom/resolver.py:243-245 | a depth limit of one less than the number of packages is always enough |
| `Resolver.ChildrenAre` | tools/sbom/resolver.py:246-263 | the search goes on to exactly what is required and to the linked libraries that pkg-config knows |
| `Resolver.PairsAre` | tools/sbom/resolver.py:262-275 | the dependency pairs are exactly those to required packages, to known libraries under their own name, and to the others with "lib" in front unless it is there; none has an empty name |
| `Resolver.Search.SearchPkg` | tools/sbom/resolver.py:214-280 | whatever the depth limit, all that is found is reachable and finished packages have exactly their pairs recorded; if no simple path is too long, everything come across is finished, in any order of children |
| `Resolver.Search.TooDeep` | tools/sbom/resolver.py:243-245 | the depth limit cuts the search off only at the end of a simple path that is too long |
| `Resolver.Search.AddSystemLibs` | tools/sbom/resolver.py:272-275 | an edge to every system library under its prefixed name |
| `Resolver.BuildGraph` | tools/sbom/resolver.py:283-310 | visited packages are reachable and edges are dependency pairs of reachable packages; if no simple path from a seed is longer than the limit, visited is exactly the reachable set and the edges are exactly its dependency pairs |
| `Normaliser.MergedFields` | tools/sbom/resolver.py:124-127 | merging fills the missing ones of version, url, pcfile and type from the other entry and changes no other field |
| `Normaliser.MovedFields` | tools/sbom/resolver.py:110-127 | after one move every field: a renamed entry keeps all but its name, an entry that is merged into takes over four fields where it lacks them |
| `Normaliser.RenamedKeepsFields` | tools/sbom/resolver.py:76-127 | after a whole pass an entry whose new name is free, and that no other entry gets in the way of, has all its fields and sources under the new name |
| `Normaliser.MergedKeepsFields` | tools/sbom/resolver.py:76-127 | and one that exactly one other entry is merged into has its own fields, and of the other what it lacked of the four |
| `Normaliser.SettledStays` | tools/sbom/resolver.py:76-127 | and one that has its canonical name, and that none is merged into, is unchanged |
| `Normaliser.NamesAfterPass` | tools/sbom/resolver.py:110-127 | the names after a pass are those that packages keep, and the new ones that no later rename takes away |
| `Normaliser.NamesSurviveIff` | tools/sbom/resolver.py:110-127 | every canonical name is there after a pass, and no other, if and only if each new name is given by some rename after the package that had it before was renamed |
| `Normaliser.ChainLoses` | tools/sbom/resolver.py:110-127 | a package renamed to a name whose own package is renamed after it: the name is lost |
| `Normaliser.FirstDirectoryIs` | tools/sbom/resolver.py:62-67 | the directory is that of the first source of kind "wrap" that has one |
| `Normaliser.NameOrder` | tools/sbom/resolver.py:50-73 | the name is that of the .pc file, else of the wrap file, else of a wrap source, else the old one, and "packagecache" is dropped |
| `Normaliser.Landing` | tools/sbom/resolver.py:110-127 | the renamed entry gets its new name, or the entry that is there takes its .pc file if it has none; all other entries stay |
| `Normaliser.MoveSettles` | tools/sbom/resolver.py:110-127 | renaming or merging one entry keeps: what is not still to be renamed has its canonical name |
| `Normaliser.OnePassSettles` | tools/sbom/resolver.py:76-127 | one pass gives every package of a dictionary its canonical name if each package that wrap metadata, of a file or of a source, rename has an old name that is the .pc name of no entry, and a new name that stays |
| `Normaliser.SecondPassIsIdentity` | tools/sbom/resolver.py:76-127 | and a second pass over that dictionary is then the identity, entries and order |
| `Normaliser.FixedIffSettled` | tools/sbom/resolver.py:76-127 | a pass leaves a dictionary as it is if and only if every package has its canonical name already |
| `Normaliser.WrapNameBreaks` | tools/sbom/resolver.py:58-66 | one package named by wrap metadata, after one whose .pc file has its old name, makes the second pass rename again |
| `Normaliser.ShiftingNameBreaks` | tools/sbom/resolver.py:58-66 | so does a wrap file whose name is renamed or dropped in turn |
| `Normaliser.OnePassIsEnoughIff` | tools/sbom/resolver.py:58-66 | one pass is enough for every dictionary without directories in its sources, if and only if a package that a wrap file renames has a new name that stays and an old name that no .pc file could have |
| `Normaliser.NormalisedValid` | tools/sbom/resolver.py:76-127 | a pass keeps the dictionary a dictionary: keys in order, each once |
| `Normaliser.Dependencies.Fill` | tools/sbom/resolver.py:124-127 | the loop over the fields computes the filled entry |
| `Normaliser.Dependencies.Move` | tools/sbom/resolver.py:110-127 | pops the old entry and renames or merges it |
| `Normaliser.Dependencies.Plan` | tools/sbom/resolver.py:93-103 | the first pass over the items finds exactly what to drop and what to rename |
| `Normaliser.Dependencies.Normalise` | tools/sbom/resolver.py:76-127 | the in-place loops compute one pass |

## Left out

- FlexBuffer.Buffer.MakeRoom: for buffers that `GrowthFits` allows to grow, which covers texts of up to 1908874350 bytes and every start size but 1073741823; past that the source overflows an int
- FlexBuffer.Buffer.OnFile: the same limits on the size of the file and of the buffer
- FlexBuffer.Buffer.OnString: for strings of up to 2147483645 bytes, which with the two sentinels is what an int can count
- NcTrans.NameChangeTransaction.constructor: the exceptions on null arguments, and on a requested direction without a domain; a direction is requested here exactly if it has a domain
- Resolver.Search.SearchPkg: the entries that the search adds to the dictionary of packages, and the calls of the normaliser in between, are not part of it; they do not influence the search
- The DNS client, TSIG keys, message wire format and name parsing: names, addresses and record data are abstract values, and what the client reports is an input
- Times to live of records, and responses that do not belong to any request sent
- Several zones or several servers with different contents: the servers of both domains serve one zone
- Exceptions inside building or sending an update are inputs (`Fault`); hooks that skip a server are the `usable` flag of the server
- Logging, error texts and positions of elements; an error is identified by its kind, key and context
- The transactions without a DHCID check and the simple ones, which share the base class
- The flex and Bison tables: in `FlexBuffer` the scanner's automaton is a parameter, in `IncludeStack` what the token patterns match is one, and a derivation is taken as given; that the tables implement the patterns and the grammar is not shown
- The beginning of a location, of which only the end is modelled, and the line that a comment without an end is said to start in
- Reading from a terminal that reports an error, and running out of memory
- The numbers that the scanner makes of integer and floating-point tokens
- Adding edges for Meson subprojects, and the SPDX output
- In which order Python iterates over a set is left open: the search holds for every order, and dropping entries does not depend on it
- Which packages the search starts from, and the depth it is limited to, are parameters
- Which keyword has which check and which required keys is a parameter of a derivation, as the production that the parser reduces has it
