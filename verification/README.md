# pproxy: models and proofs

A Dafny model of the state machines and arithmetic kernels of pproxy, a proxy and gateway, and proofs of
what they keep. Network and database outcomes are arbitrary scripts or parameters, clocks are natural
numbers passed in, hashes are uninterpreted functions, and counters are unbounded naturals.

`dafny verify dfyconfig.toml` checks everything.

| file | what it models |
|---|---|
| `Common.dfy`, `Text.dfy` | options, finite sums, residues; string operations and host labels |
| `Ordering.dfy`, `Route.dfy` | order of gate endpoints, host classes, the compliant-egress filter |
| `Pool.dfy`, `PoolMaintain.dfy` | the standby tunnel pool: checkout as code, and the refill loop as a protocol |
| `Usage.dfy`, `UsageRuns.dfy` | usage counters: the tracker as code, and every interleaving of its steps |
| `Connect.dfy` | a whole CONNECT request: admission, endpoint choice, pool, retries, answer |
| `HeadReader.dfy`, `HeadRewrite.dfy` | reading an HTTP head in pieces; removing forged ticket headers |
| `Ipv4Text.dfy`, `Target.dfy` | inet_aton-style addresses, the public-address test, target resolution |
| `Meter.dfy` | byte quotas shared by concurrent pumps |
| `Calendar.dfy` | day numbers, dates and timestamps |
| `Gatekeeper.dfy` | lock-out with exponential backoff |
| `Cluster.dfy` | gossip membership and tombstones |
| `Token.dfy` | token store, cache, revocation, use stamps |
| `Edge.dfy` | retries against one edge and failover to a backup |

Code that works in place is a class or a method with a loop, proved against a specification function;
what the system promises is then proved of that function. Protocols are state machines whose runs are
sequences of steps, and their theorems quantify over all runs.

Where the code does not do what its documentation or the natural reading promises, the code is modelled
and the exact boundary is proved:

- A second revocation of a token reports it already revoked without reloading the cache. After a failed
  reload the token is still accepted (`Token.RevokedTokenStillAccepted`); the report is final exactly when
  the row was revoked, or absent, at the last reload (`Token.AlreadyRevokedFinalIff`).
- Peers relayed inside a heartbeat skip the tombstone check, so a dead peer can come back with its old
  incarnation (`Cluster.RelayResurrects`); tombstones stay below live incarnations exactly when a heartbeat
  relays no buried peer back (`Cluster.BeatSupersedes`).
- The comments of crates/core/src/edge.rs promise that a POST without an idempotency key is not sent again
  after a 5xx. One edge keeps that promise, but the failover sends the request to the backup; it passes
  connection setup twice exactly in the case of `Edge.DeliveredAtMostTwice`.
- A rewritten head keeps its framing exactly when some line is left to frame (`HeadRewrite.FramingKept`);
  a head that holds only a ticket header loses it (`HeadRewrite.TicketOnlyLosesFraming`).
- The comment on NAT64 names 64:ff9b::/96, the code refuses 64:ff9b::/32 (`Target.PublicV6IffNotReserved`).
- Number parts of an address may carry a plus sign, as in `0x+7f` (`Ipv4Text.NumberIffDenotes`).
- The comment on the compliant filter says that only Vercel endpoints stay; the code keeps native VPS
  endpoints too (`Ordering.FilterKeepsOrder`).
- Pruning an idle record changes no verdict before the next failure, but restarts the failure count
  (`Gatekeeper.PruneRestartsCount`); after the next failure every verdict is the same exactly when the
  forgotten failures would not have lengthened its lock-out (`Gatekeeper.PruneRestartsCountIff`).
- After five 401 answers the refill is meant to pause for a minute or until the configuration changes. The
  loop reads a new configuration without marking it seen, so one that is already adopted can still end the
  pause at once (`PoolMaintain.AdoptedChangeCutsWait`); the pause can be cut short exactly when a change
  was pending as the fuse blew or came since (`PoolMaintain.WaitCutShortIff`).

## Model

| member | source | states |
|---|---|---|
| `Text.DotSuffixIsLabelSuffix` | crates/transport/src/route.rs:141-147 | the character test "ends with the entry, at a dot boundary" holds if and only if the entry's labels are the host's last labels |
| `Text.ContainsIffHolds` | crates/transport/src/route.rs:22-25 | the substring test holds if and only if the text is something, the needle and something |
| `Ordering.OrderEndpoints` | crates/transport/src/route.rs:190-230 | the loop and the in-place rotations compute VPS, then Vercel and CF in the preferred order, each class rotated |
| `Ordering.OrderedIsPermutation` | crates/transport/src/route.rs:190-230 | the order is a permutation of the configured list, repetitions included |
| `Ordering.OrderedByRank` | crates/transport/src/route.rs:218-230 | nothing precedes a VPS endpoint but VPS endpoints; CF never precedes Vercel where Vercel is preferred, nor Vercel CF where it is not |
| `Ordering.OrderedRotatesEachClass` | crates/transport/src/route.rs:204-216 | each class appears in its configured order, counted around from the offset |
| `Ordering.EachMemberLeadsOnce` | crates/transport/src/route.rs:204-216 | at every offset of a window as long as the class the leader is the configured member at that offset modulo its size; if no endpoint is configured twice, each leads at exactly one offset |
| `Ordering.FilterKeepsOrder` | crates/transport/src/route.rs:268-274 | the filter removes all CF endpoints and nothing else, and keeps each class in order |
| `Ordering.CompliantOrder` | crates/transport/src/route.rs:268-274 | filtering the ordered list leaves the VPS endpoints and then the Vercel ones, rotated as before |
| `Route.OrderEndpointsWithOffset` | crates/transport/src/route.rs:176-231 | the order for a host, with the host deciding whether Vercel is preferred |
| `Route.GateUrlCounter.OrderedGateUrls` | crates/transport/src/route.rs:233-252 | the trimmed non-empty endpoints of the configured text, ordered at the counter's old value; the counter moves by one |
| `Route.CompliantEndpoints` | crates/transport/src/route.rs:268-274 | every endpoint left is one of the ordered ones and is not CF (that no other is removed: `Ordering.FilterKeepsOrder`) |
| `Route.EndpointClasses` | crates/transport/src/route.rs:11-25 | an endpoint is VPS exactly if its address holds one of the VPS names, and Vercel exactly if it holds a Vercel name and no VPS name |
| `Route.CompliantHosts` | crates/transport/src/route.rs:135-148 | a host needs compliant egress exactly if the labels of its canonical form end in those of one of the three Cloud Code names |
| `Route.YoutubeHosts` | crates/transport/src/route.rs:119-132 | a host is YouTube's exactly if its labels end in those of one of the six names |
| `Route.StrictAiHosts` | crates/transport/src/route.rs:84-92 | a host is a strict AI target exactly if its labels end in those of one of the six names |
| `Route.CanonicalMeaning` | crates/transport/src/route.rs:136-137 | the canonical host is the given one without white space around it, without trailing dots and in small letters |
| `Route.PreferenceRules` | crates/transport/src/route.rs:182-188 | compliant and strict AI hosts prefer Vercel in either mode, saving never adds a preference, and no other host has one |
| `Route.CompliantIsNotYoutube` | crates/transport/src/route.rs:102-148 | no host is both a compliant-egress host and a YouTube host |
| `Pool.PopUsable` | crates/transport/src/pool.rs:152-167 | pops one stack down to its topmost usable session, stashing unexpired misfits in pop order and counting the expired |
| `Pool.PutBack` | crates/transport/src/pool.rs:170-173 | pushing the stash back in reverse restores each key's misfits in their old order |
| `Pool.TakeSession` | crates/transport/src/pool.rs:142-173 | the scan, stash and put-back compute the specified hit and stacks; sessions before = sessions after + hit + expired |
| `Pool.TunnelPool.Checkout` | crates/transport/src/pool.rs:137-184 | the hit, the stacks, the counters and the wake-ups of one checkout; conservation over hits and expired |
| `Pool.TunnelPool.Invalidate` | crates/transport/src/pool.rs:187-193 | empties the pool, wakes the refill, keeps the counters |
| `Pool.HitIsBest` | crates/transport/src/pool.rs:147-169 | the session handed out is younger than the time to live, fits the fingerprint, and is the latest such one of the first listed endpoint that has any; endpoints listed later and sessions below it are untouched |
| `Pool.MissMeansNoneUsable` | crates/transport/src/pool.rs:147-184 | after a miss every session of a listed endpoint was too old or had another fingerprint |
| `Pool.MissKeepsRest` | crates/transport/src/pool.rs:147-184 | a miss drops exactly the sessions of listed endpoints whose age has reached the time to live |
| `Pool.OthersKeepOrder` | crates/transport/src/pool.rs:144-173 | every other unexpired session stays under its key in its old order, despite stash and put-back |
| `PoolMaintain.RunIsSafe` | crates/transport/src/pool.rs:219-360 | in every interleaving of refill, checkout, invalidation and configuration change: sessions sit under adopted endpoints with the adopted token's fingerprint, no endpoint exceeds its target, the 401 counter equals the streak in the log, and the fuse counter how often it reached five |
| `PoolMaintain.PassFills` | crates/transport/src/pool.rs:243-333 | in a pass that nobody disturbs, with any dials failing, an endpoint that connects ends with no session if Vercel, none if CF beside a VPS, and the whole pool size otherwise, in particular at every VPS; one that does not connect keeps what it held, or has nothing after a configuration change |
| `PoolMaintain.ConnectedIsPushed` | crates/transport/src/pool.rs:279-296 | a dial that connects puts its session, born now and marked with the adopted token, on top of its endpoint's stack |
| `PoolMaintain.PurgedExactly` | crates/transport/src/pool.rs:230-236 | the purge drops exactly the sessions whose age has reached the time to live |
| `PoolMaintain.StreakMeaning` | crates/transport/src/pool.rs:283-327 | the streak is the number of 401 answers since the last success, other failure, adoption or end of a wait |
| `PoolMaintain.DialAfterFuse` | crates/transport/src/pool.rs:297-323 | in every run, a dial after a fifth 401 in a row comes after the end of a wait, and at least a minute after the 401, unless a change was pending when the fuse blew or came during the wait |
| `PoolMaintain.WaitCutShortIff` | crates/transport/src/pool.rs:315-321 | at every reachable moment of a wait, it can end if and only if its minute is over, or a change was pending when the fuse blew or has come since |
| `PoolMaintain.AdoptedChangeCutsWait` | crates/transport/src/pool.rs:239-321 | for every configuration of six poolable endpoints there is a run with one publication, adopted, in which the sixth dial follows the fifth 401 at the same moment |
| `PoolMaintain.SixPlainEndpoints` | crates/transport/src/pool.rs:263-272 | such a configuration exists |
| `PoolMaintain.PooledEgress` | crates/transport/src/pool.rs:263-276 | in every run a standby session sits at an adopted endpoint, within the pool size, with the adopted token's fingerprint; never at Vercel, nor at CF once a VPS is configured |
| `Usage.Store.Upsert` | crates/core/src/store/usage.rs:8-35 | one transaction: all rows accumulate or none does, wherever a statement fails |
| `Usage.UsageTracker.RecordRequest` | crates/core/src/usage.rs:116-120 | adds one request and the bytes to the key's counters and to nothing else |
| `Usage.UsageTracker.RecordBytesOut` | crates/core/src/usage.rs:123-126 | adds the bytes sent to the key's counters and to nothing else |
| `Usage.UsageTracker.Drain` | crates/core/src/usage.rs:134-141 | returns all live amounts and leaves none |
| `Usage.UsageTracker.MergeBack` | crates/core/src/usage.rs:146-153 | adds the drained amounts onto what is live, key by key |
| `Usage.UsageTracker.Flush` | crates/core/src/usage.rs:158-195 | success moves every live amount into its hour's slot; failure changes neither counters nor table |
| `Usage.UsageTracker.Query` | crates/core/src/usage.rs:200-253 | reports the rows that the filter keeps of a listing of the table, together with the matching live counters |
| `Usage.QueryUsage` | crates/core/src/store/usage.rs:39-62 | keeps exactly the rows from the hour on that match route and token, out of a listing with one row per slot |
| `Usage.Aggregate` | crates/core/src/usage.rs:215-240 | per key the sum of the rows and of the matching live counters |
| `Usage.MakeRows` | crates/core/src/usage.rs:163-174 | one row per drained key; writing them one by one flushes the drained amounts into any table |
| `Usage.FilterCommutes` | crates/core/src/usage.rs:200-253 | the filtered report is the full report, filtered, for every route and token filter |
| `UsageRuns.NothingLost` | crates/core/src/usage.rs:116-195 | in every interleaving of recordings, per-key drains, upserts, failures and merge-backs of overlapping flushes, recorded = live + in flight + stored, for each key and counter |
| `UsageRuns.RecordedIsSaid` | crates/core/src/usage.rs:116-126 | what counts as recorded is exactly the sum of the recording calls of the run |
| `UsageRuns.AnswerIs` | crates/core/src/usage.rs:200-253 | for every listing of a table, a key of the asked route and token is reported with what the table stores of it from the hour on plus what is live, and any other key not at all |
| `UsageRuns.StoredRemove` | crates/core/src/store/usage.rs:46-52 | what is stored of a key is, row by row, the rows of that key from the hour on |
| `UsageRuns.QueryShortfall` | crates/core/src/usage.rs:200-253 | a query that reads the table at one moment and a key's counter at a later one reports less than was recorded by exactly the older hours, what flushes landed in between and what is in flight; it never over-reports |
| `UsageRuns.QueryExact` | crates/core/src/usage.rs:200-253 | without a flush in flight between its reads, the report of a query over all hours is exactly what was recorded |
| `Connect.EstablishWithEndpoints` | crates/server/src/connect.rs:635-658 | the loop runs the pass that the script of outcomes determines: its events, its result and the outcomes used up |
| `Connect.PassResult` | crates/server/src/connect.rs:635-658 | for every script, a failed pass dials every endpoint once in order and reports the last failure; a good one ends at its only accepted bind |
| `Connect.ScriptFollowed` | crates/server/src/connect.rs:560-658 | in every tunnel run the k-th dial meets the script's k-th dial outcome, the k-th bind, pooled or cold, its k-th bind outcome, and the k-th back-off lasts 50 * 2^k ms plus the k-th jitter |
| `Connect.TunnelEvents` | crates/server/src/connect.rs:560-658 | told from the trace alone: the script is followed, exactly the endpoints that connect are bound, each at once, and the pool is asked first of all and only then, its session being bound at once |
| `Connect.Attempt` | crates/server/src/connect.rs:561-579 | the attempt that the script and the pool's contents determine: a pooled session is bound first, only where allowed; its failure falls back to a cold pass |
| `Connect.Tunnel` | crates/server/src/connect.rs:560-608 | the retry loop runs exactly the events that the script and the pool's contents determine |
| `Connect.TunnelKeeps` | crates/server/src/connect.rs:560-608 | for every script and pool: at most five passes, whose dials go through the endpoints in order; retries only after network failures, with doubling pauses; the pool asked first or not at all; 200 exactly after the only accepted bind, 502 after whole passes otherwise |
| `Connect.ServeTarget` | crates/server/src/connect.rs:482-608 | the exact course, as a function of the script, over the endpoints chosen for the host; one answer, at most 5 dials per endpoint, dials only to configured endpoints, 200 only when earned; a compliant host never meets a CF endpoint or the YouTube branch, and gets 502 without contact if all are CF |
| `Connect.HandleConnect` | crates/server/src/connect.rs:417-609 | every request gets exactly one response head: 429 when locked, 407, 400 or 403 when refused, without any contact; an admitted one is served as above |
| `HeadReader.ReadHead` | crates/gate-server/src/connect_proxy.rs:351-389 | all bytes read are returned and with the unread ones are the stream; each failure is reported only when it is the case |
| `HeadReader.ServeHead` | crates/gate-server/src/connect_proxy.rs:135-155 | accepted, refused or still reading is a function of the bytes alone, whatever the cut; the head is the same, and head + leftover + unread = stream |
| `HeadReader.AcceptedWithinLimit` | crates/gate-server/src/connect_proxy.rs:392-405 | accepted if and only if a blank line ends within 16384 bytes, refused if and only if not and there are more bytes than that; the head ends at its first blank line |
| `HeadReader.JudgedForGood` | crates/gate-server/src/connect_proxy.rs:366-398 | a verdict once reached is not changed by later bytes |
| `HeadReader.CutsDeliver` | crates/gate-server/src/connect_proxy.rs:351-389 | every cut of a stream into non-empty reads delivers that stream without disruption |
| `HeadRewrite.FindHeaderEnd` | crates/core/src/ha_forwarder.rs:385-387 | the first CRLFCRLF, or none anywhere |
| `HeadRewrite.TrimByteSpaces` | crates/core/src/ha_forwarder.rs:373-383 | the two index loops compute the trimmed slice |
| `HeadRewrite.TrimmedMeaning` | crates/core/src/ha_forwarder.rs:373-383 | trimming removes only blanks, and all of them at both ends |
| `HeadRewrite.KeepsLine` | crates/core/src/ha_forwarder.rs:311-318 | a line goes exactly if it is blanks, the ticket name in some letter case, blanks, a colon and anything |
| `HeadRewrite.HasKeyIffCarries` | crates/core/src/ha_forwarder.rs:311-318 | the parser's test for every line and name, with the letters and blanks written out |
| `HeadRewrite.SanitizeAndInjectTicket` | crates/core/src/ha_forwarder.rs:299-350 | the cursor loop writes the surviving lines, the ticket line and the blank line |
| `HeadRewrite.OutputLines` | crates/core/src/ha_forwarder.rs:299-350 | split again, the output is exactly the input's lines in order minus ticket headers, plus the official line, plus the end |
| `HeadRewrite.LinesLeft` | crates/core/src/ha_forwarder.rs:307-342 | the lines left are the input's in order: a line stays exactly if it does not carry the ticket name, and lists are filtered piece by piece |
| `HeadRewrite.ForgedLinesGo` | crates/core/src/ha_forwarder.rs:307-342 | a line of the head is in the output, apart from the official ticket, exactly if it does not carry the ticket name |
| `HeadRewrite.NoForgedTicket` | crates/core/src/ha_forwarder.rs:311-346 | a line of the output that carries the ticket name is the official one, name, colon, blank and ticket, in last place |
| `HeadRewrite.FramingKept` | crates/core/src/ha_forwarder.rs:299-350 | for a head cut at its first CRLFCRLF, the output's first CRLFCRLF is at its very end if and only if a line survives or a ticket is given |
| `HeadRewrite.RequestLineKeepsFraming` | crates/core/src/ha_forwarder.rs:299-350 | in particular a non-empty request line that is no ticket header keeps the framing |
| `HeadRewrite.TicketOnlyLosesFraming` | crates/core/src/ha_forwarder.rs:299-350 | a head of one ticket header and no official ticket comes out as a lone CRLF, with no head end |
| `HeadRewrite.SmallestTicketHead` | crates/core/src/ha_forwarder.rs:311-318 | such a head exists |
| `Ipv4Text.NumberIffDenotes` | crates/gate-server/src/connect_proxy.rs:512-526 | a part is read as v if and only if it is, letter case aside, prefix, optional sign, padding and digits of v in decimal, hexadecimal or octal, and v fits in 32 bits |
| `Ipv4Text.KnownHex` | crates/gate-server/src/connect_proxy.rs:516-520 | 0x7f and 0X7F are 127; a bare 0x is refused |
| `Ipv4Text.KnownOctal` | crates/gate-server/src/connect_proxy.rs:521-522 | 0177 is 127; 08 is refused |
| `Ipv4Text.KnownDecimal` | crates/gate-server/src/connect_proxy.rs:523-525 | 127, 0 and +5 are read; the empty part is refused |
| `Ipv4Text.Accumulate` | crates/gate-server/src/connect_proxy.rs:491-508 | the 32-bit accumulator loop never loses a bit; it refuses exactly the out-of-range parts |
| `Ipv4Text.ParseLegacyIpv4` | crates/gate-server/src/connect_proxy.rs:479-510 | accepts exactly the spellings of 32-bit addresses and returns the address spelled |
| `Ipv4Text.JoinSpells` | crates/gate-server/src/connect_proxy.rs:479-510 | any one to four parts that denote an address's fields, joined by dots, spell it |
| `Ipv4Text.SpellsUnique` | crates/gate-server/src/connect_proxy.rs:479-510 | no text spells two addresses |
| `Target.PublicV4IffNotReserved` | crates/gate-server/src/connect_proxy.rs:537-568 | the octet tests refuse exactly the union of the reserved address ranges |
| `Target.PublicV6IffNotReserved` | crates/gate-server/src/connect_proxy.rs:570-599 | a mapped address (section 2.5.5.2 of RFC 4291) gets its inner verdict; any other is public iff it is in no reserved 128-bit range |
| `Target.StdIsSpelling` | crates/gate-server/src/connect_proxy.rs:463-468 | the strict dotted quad is one of the spellings, so the two parsers never disagree |
| `Target.ParseIpLiteral` | crates/gate-server/src/connect_proxy.rs:463-468 | every spelling gives its address, an IPv6 literal its segments, and only those are literals |
| `Target.NameAllowedIff` | crates/gate-server/src/lib.rs:74-103 | a name passes if and only if it has 1 to 253 characters and, trailing dots and letter case aside, its last label is not localhost and its first labels are not those of a private, loopback or link-local address |
| `Target.DomainHostIff` | crates/gate-server/src/connect_proxy.rs:470-476 | a domain host is 1 to 253 letters, digits, dots and hyphens, by code point |
| `Target.ResolveTarget` | crates/gate-server/src/connect_proxy.rs:432-460 | an address comes back only if public, for a name only if every resolved address is; every spelling gets its address's verdict; each error exactly when it is the case |
| `Meter.Gate.AdmitConnect` | crates/gate-server/src/connect_proxy.rs:197-206 | admitted exactly when the user's counter is below the quota; nothing changes |
| `Meter.PrincipalOf` | crates/gate-server/src/lib.rs:502-512 | the role alone makes an administrator; only an administrator has no quota |
| `Meter.Gate.AdmitWs` | crates/gate-server/src/lib.rs:555-567 | admitted exactly when the counter is below the quota; a metered user gets a counter |
| `Meter.Gate.ChargeConnect` | crates/gate-server/src/connect_proxy.rs:289-305 | the new counters, and whether the charge landed at or over the quota |
| `Meter.Gate.ChargeWs` | crates/gate-server/src/lib.rs:704-717 | the same on the WS plane, where only existing counters are charged |
| `Meter.Pump` | crates/gate-server/src/connect_proxy.rs:308-345 | everything delivered is charged; every total but a landing last one is under the quota; landing cancels the partner |
| `Meter.UsedGrows` | crates/gate-server/src/connect_proxy.rs:289-305 | in every run of any connections no counter ever goes down |
| `Meter.ChargesConserved` | crates/gate-server/src/lib.rs:689-780 | in every run the counter is the sum of what its user's relays charged, and each relay lands at most once and is then dead |
| `Meter.ChargeExact` | crates/gate-server/src/connect_proxy.rs:289-305 | in every run what a live relay of a metered user delivers is charged in full to that user alone, and the relay stops exactly at or over the quota |
| `Meter.AdmitExact` | crates/gate-server/src/connect_proxy.rs:197-206 | a connection is admitted exactly below the quota, with 16384-byte chunks or a frame for a WS upload; no counter moves |
| `Meter.NoneAfterQuota` | crates/gate-server/src/lib.rs:555-567 | once the counter reaches the quota no later connection of that user is ever admitted |
| `Meter.QuotaOvershoot` | crates/gate-server/src/lib.rs:689-780 | for any number of concurrent connections on both planes, usage <= quota - 1 + one chunk per landed relay (+ what administrator connections of the same user charge) |
| `Meter.OvershootReached` | crates/gate-server/src/lib.rs:689-780 | the bound is reached, for every quota |
| `Calendar.CivilIsRight` | crates/core/src/quota.rs:131-142 | every day number gives a valid date whose recursively counted day number it is |
| `Calendar.CivilInverts` | crates/core/src/quota.rs:131-142 | every valid date is the conversion of its own day number |
| `Calendar.CivilNextDay` | crates/core/src/quota.rs:131-142 | the next day number gives the next calendar date |
| `Calendar.EraIsFloor` | crates/core/src/quota.rs:133-133 | the truncating division with its negative branch is floor division |
| `Calendar.UtcPartsAgrees` | crates/cli/src/render.rs:222-242 | the independently written conversion gives the same date, and the hour and minute of the timestamp |
| `Calendar.IsoIncreases` | crates/core/src/quota.rs:118-128 | up to the year 9999 the RFC 3339 text is strictly increasing as text |
| `Calendar.IsoReadsBack` | crates/core/src/quota.rs:118-128 | up to the year 9999 the text has the form of section 5.6 of RFC 3339, and its numbers give back the day number of a valid date and the second of the day |
| `Calendar.KnownDays` | crates/core/src/quota.rs:131-142 | the epoch, the day before it, a leap day of a century year and a recent day |
| `Gatekeeper.AuthGatekeeper.Check` | crates/core/src/gatekeeper.rs:54-72 | refuses exactly the addresses whose deadline is ahead; a passed deadline is cleared |
| `Gatekeeper.AuthGatekeeper.RecordFailure` | crates/core/src/gatekeeper.rs:75-94 | the count, the last attempt and, from the threshold on, the doubled deadline |
| `Gatekeeper.AuthGatekeeper.RecordSuccess` | crates/core/src/gatekeeper.rs:97-100 | forgets the address and no other |
| `Gatekeeper.AuthGatekeeper.PruneStale` | crates/core/src/gatekeeper.rs:103-114 | keeps exactly the locked and the recently active records |
| `Gatekeeper.PruneKeepsExactly` | crates/core/src/gatekeeper.rs:106-113 | exactly the records still locked, or active less than the idle limit ago, stay, unchanged |
| `Gatekeeper.BackoffLowerBound` | crates/core/src/gatekeeper.rs:75-94 | in every run of checked attempts, failure n comes at least the sum of base * 2^min(j, shift), j < n - max, after failure number max |
| `Gatekeeper.BackoffInNumbers` | crates/core/src/gatekeeper.rs:75-94 | k failures after failure number max take at least base * (2^k - 1) while lock-outs double, and base * 2^shift more for each failure beyond |
| `Gatekeeper.FailureDeadline` | crates/core/src/gatekeeper.rs:84-91 | after any run without success or prune that ends in the n-th failure, n is recorded and the deadline is now + base * 2^min(n - max, shift) from the threshold on |
| `Gatekeeper.FailureLocksFor` | crates/core/src/gatekeeper.rs:54-94 | an address that fails unlocked is then refused exactly for base * 2^min(n - max, shift) |
| `Gatekeeper.LastGap` | crates/core/src/gatekeeper.rs:54-94 | a failure past the threshold is recorded only after the previous one's lock-out |
| `Gatekeeper.PruneKeepsVerdicts` | crates/core/src/gatekeeper.rs:103-114 | pruning changes no verdict at that moment or later |
| `Gatekeeper.PruneKeepsLaterVerdicts` | crates/core/src/gatekeeper.rs:103-114 | nor after any checks that follow, up to the next record |
| `Gatekeeper.LockAfterPrune` | crates/core/src/gatekeeper.rs:75-114 | after a forgotten address fails, it is locked for the first failure's penalty; without the prune, for that of the next one on record |
| `Gatekeeper.PruneRestartsCountIff` | crates/core/src/gatekeeper.rs:75-114 | for every configuration, table, idle limit and time, the verdicts after that failure are those without the prune if and only if the forgotten count does not shorten the lock-out; otherwise they differ exactly between the two deadlines |
| `Gatekeeper.PruneRestartsCount` | crates/core/src/gatekeeper.rs:75-114 | with the default configuration: four failures, an idle hour and a prune, and the fifth failure brings no lock-out instead of five minutes |
| `Cluster.ClusterManager.MergeHeartbeat` | crates/core/src/cluster.rs:249-291 | the new peer table for every heartbeat, relayed peers included; tombstones untouched |
| `Cluster.ClusterManager.Snapshot` | crates/core/src/cluster.rs:294-324 | the two passes report and keep the aged survivors and bury the dead with their incarnations |
| `Cluster.AddRelayedAt` | crates/core/src/cluster.rs:286-290 | a known peer stays, an unknown one comes from its first relayed entry, the local one never |
| `Cluster.BeatEffect` | crates/core/src/cluster.rs:249-283 | a heartbeat counts exactly if it is not the node's own, above its sender's tombstone and not older than what is known; then the sender is alive with its facts as of now, else nothing changes |
| `Cluster.LocalNeverPeer` | crates/core/src/cluster.rs:250-290 | in every run, with any relayed lists, the local id is neither a peer nor buried |
| `Cluster.NeverBack` | crates/core/src/cluster.rs:263-283 | a peer that stays never goes back in incarnation or timestamp |
| `Cluster.BeatSupersedes` | crates/core/src/cluster.rs:254-290 | a heartbeat keeps live incarnations above buried ones if and only if it relays no buried peer back |
| `Cluster.RunSuperseded` | crates/core/src/cluster.rs:249-324 | so in every run without such relays any id both live and buried has a strictly larger live incarnation |
| `Cluster.EmptyListsResurrectNone` | crates/core/src/cluster.rs:286-290 | runs with empty relayed lists are such runs |
| `Cluster.GravesGrow` | crates/core/src/cluster.rs:314-321 | a tombstone is never lost and changes only on a re-death, which strictly raises its incarnation |
| `Cluster.RelayResurrects` | crates/core/src/cluster.rs:286-290 | a relayed list does bring a buried peer back with its old incarnation |
| `Cluster.ReportExact` | crates/core/src/cluster.rs:303-323 | a timely table is reported with Suspect exactly for 30 s < age <= 120 s; an older peer is buried with its incarnation |
| `Cluster.BeatTimely` | crates/core/src/cluster.rs:269-290 | a heartbeat keeps the table timely if and only if it relays in no peer already marked |
| `Cluster.RunTimely` | crates/core/src/cluster.rs:249-324 | so every snapshot of every such run under a monotone clock is exact |
| `Cluster.MergeAllHoldsNewest` | crates/core/src/cluster.rs:263-283 | merged in any order with any repetitions, the table holds each sender's newest heartbeat and nothing else |
| `Cluster.OrderAndDuplicatesDoNotMatter` | crates/core/src/cluster.rs:263-283 | two sequences of the same heartbeats leave the same facts, whatever the arrival times |
| `Cluster.PairCommutesIffComparable` | crates/core/src/cluster.rs:263-283 | for two heartbeats order does not matter if and only if they agree or one is strictly newer |
| `Token.TokenStore.InsertToken` | crates/core/src/store/tokens.rs:7-20 | refused exactly on a repeated hash or live name; otherwise one new row under a new id |
| `Token.TokenStore.RevokeToken` | crates/core/src/store/tokens.rs:44-60 | stamps exactly a live row; the three outcomes tell which case it was |
| `Token.TokenStore.ListTokens` | crates/core/src/store/tokens.rs:32-41 | exactly the rows, by increasing id |
| `Token.TokenService.CreateToken` | crates/core/src/token.rs:138-179 | the new state and the result for every name, expiry, store state and failure |
| `Token.TokenService.RevokeToken` | crates/core/src/token.rs:187-198 | the new state and the result; the cache is reloaded only by the call that revokes |
| `Token.TokenService.VerifyToken` | crates/core/src/token.rs:201-254 | the verdict on the cached row, for data and for administrator tokens, and the use stamp |
| `Token.TokenService.ThrottleTouch` | crates/core/src/token.rs:257-284 | a stamp exactly when none is remembered or the last is a minute old |
| `Token.Index` | crates/core/src/token.rs:287-294 | the rebuild loop indexes every row by its hash |
| `Token.CacheIsLastReload` | crates/core/src/token.rs:287-295 | in every run the cache is the table as of the last reload |
| `Token.CoherentStep` | crates/core/src/token.rs:138-198 | cache and table stay equal exactly when the call reloaded or changed nothing |
| `Token.SuccessfulWriteIsCoherent` | crates/core/src/token.rs:138-198 | in every run a creation or revocation that reports success leaves the cache equal to the table |
| `Token.AcceptedIff` | crates/core/src/token.rs:201-254 | in every run a token is accepted exactly if its row, as of the last reload, is unrevoked, unexpired and of the asked kind |
| `Token.NeverBothKinds` | crates/core/src/token.rs:201-221 | in a whole run data and administrator verification never accept the same plaintext, even at different moments |
| `Token.RevokeIsFinal` | crates/core/src/token.rs:187-198 | after a revocation that reports success no continuation, time or kind accepts the token |
| `Token.RevokeOutcomes` | crates/core/src/token.rs:187-198 | each outcome of a revocation exactly when it is the case, and what becomes of table and cache |
| `Token.AlreadyRevokedFinalIff` | crates/core/src/token.rs:187-198 | after a report of "already revoked" no continuation, time or kind accepts the token, if and only if the row was revoked, or absent, at the last reload |
| `Token.RevokedTokenStillAccepted` | crates/core/src/token.rs:187-198 | after every creation there is a run in which that report comes while the token still works |
| `Token.FirstCreation` | crates/core/src/token.rs:138-179 | an empty store admits a creation under every valid name |
| `Token.CreatedWorks` | crates/core/src/token.rs:138-179 | a created token is accepted as data exactly up to its expiry, never as an administrator's |
| `Token.NamesAllowed` | crates/core/src/token.rs:329-339 | a name is 1 to 64 ASCII letters, digits, dots, underscores and hyphens, not the reserved name and without the reserved prefix |
| `Token.CreateOutcome` | crates/core/src/token.rs:138-179 | each outcome of a creation exactly when it is the case, and the row that is stored |
| `Token.RunGood` | crates/core/src/store/tokens.rs:7-60 | in every run ids, hashes and live names stay unique |
| `Token.StampsAreSpaced` | crates/core/src/token.rs:257-284 | in every run, whatever the clock does, two stamps of one token are at least 60 s apart |
| `Token.StampedIff` | crates/core/src/token.rs:257-284 | in every run an accepted verification is stamped exactly if it comes at least 60 s after every stamp of that token |
| `Edge.ExecuteWithAttempts` | crates/core/src/edge.rs:88-170 | the sends are the script's up to the first that is not tried again or to the limit, with doubling pauses; the result is the last one's |
| `Edge.ExecutedUnique` | crates/core/src/edge.rs:104-169 | that description determines sends, pauses and result |
| `Edge.SentAgainIff` | crates/core/src/edge.rs:93-164 | for every request, a send is followed by another exactly if the limit allows and it met a connection error, or the request is GET, HEAD, OPTIONS or has an idempotency key and it met a late error, 502, 503 or 504 |
| `Edge.UnsafeSentOnce` | crates/core/src/edge.rs:93-164 | a request of another verb and without a key passes connection setup with its last send only |
| `Edge.PastConnectOnce` | crates/core/src/edge.rs:126-168 | a non-idempotent request without a key passes connection setup at most once |
| `Edge.TotalBackoff` | crates/core/src/edge.rs:142-160 | the total pause is between the sum of 50 * 2^a and that of 50 * 2^a + 49 over its retries |
| `Edge.Forward` | crates/server/src/gateway.rs:438-459 | three attempts at the primary; the backup, with five, exactly after an error or a 5xx if there is one |
| `Edge.ForwardBounds` | crates/server/src/gateway.rs:438-459 | at most 3 + 5 sends, at most 398 + 1696 ms of pauses, the backup only after a final error or 5xx |
| `Edge.ForwardTries` | crates/server/src/gateway.rs:438-459 | for every request, up to 3 sends at the primary and, exactly after a final error or a status from 500 to 599, up to 5 at the backup, each repeated as above |
| `Edge.UnsafeForwardedTwice` | crates/server/src/gateway.rs:438-459 | a request of another verb and without a key passes connection setup at most once at each edge |
| `Edge.DeliveredAtMostTwice` | crates/server/src/gateway.rs:438-459 | such a request passes connection setup at most twice, and twice exactly if the primary takes and fails it and a backup takes it |

## Left out

- PoolMaintain.RunIsSafe: the length of the pause between refills is arbitrary, and the configured text arrives already split into endpoints.
- Usage.QueryUsage: the order of the rows, which the sums do not depend on.
- Connect.HandleConnect: parsing of the CONNECT line, the credential check and the relay after the answer are parameters or absent; the allowlist is only logged by the source.
- Meter.QuotaOvershoot: bytes that arrive with the CONNECT head are forwarded uncharged by the source, so they are not part of the usage bounded here.
- Edge.ExecuteWithAttempts: the shift in the backoff is unbounded, so more than 63 attempts are not modelled as the source computes them.
- Target.ParseIpLiteral: the standard library's IPv6 parser is a parameter; it accepts only text with a colon.
- Ipv4Text.Accumulate: shift-and-or on disjoint bits is written as multiply-and-add, and masks of high bits as division.
- Token.RunGood: the last_used_at column, which nothing reads back, and the first-start bootstrap of the administrator token are not modelled; a service starts over any well-formed store.
- Cluster.ClusterManager.Snapshot: tombstones carry no node id besides their key; heartbeat production and join tokens are not modelled.
- Wrap-around of 64-bit counters and of the 32-bit failure count.
- The connection count of the WS plane, whose check and increment are separate steps and give no cap.
- utc_date_string, whose text is the first ten characters of the timestamp modelled, and hour_floor, whose hour a flush takes as given.
- Sockets, TLS, WebSocket frames, timeouts as real time, logging, environment variables and SQLite itself.
- SHA-256, HMAC, Ed25519, base64, JSON, cluster tickets and join tokens.
- Retention pruning of usage rows, cancelled flushes and panics in blocking tasks.
- Overlapping cache reloads of the token service, and a snapshot between the two locks of one merge.
- crates/engine, a near copy of the server's CONNECT logic, the desktop client, the command line and the deploy workers.
